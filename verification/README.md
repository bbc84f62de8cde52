# Chat relay presence-and-broadcast model

A Dafny model of the WebSocket chat relay in `server.js`. The relay keeps:

- a process-wide `users` registry, a name-keyed object of `{name}` records;
- on every connection, an optional `ws.userName` binding;
- four handlers: `onRegister`, `onExit`, `onSend` and `onDisconnect`.

Each handler rewrites the registry and the binding. It then sends a direct reply to the connection the command came from and/or broadcasts an event through `broadcastData`. `broadcastData` pushes to every connection that has a truthy name and is OPEN.

Node runs every handler to completion, so the model is sequential. Every input is a pure step `State -> Transition`, where `Transition` holds the new state and the list of `(recipient, event)` pushes in push order.

- `Registry` (registry.dfy): the `users` object as a sequence of own properties in insertion order. `Put` is property assignment. `Delete` is `delete`.
- `Protocol` (protocol.dfy): decoded inbound frames (`Msg`, `Frame`), outbound events (`Event`), refusal reasons and their wire strings.
- `Server` (server.dfy): the connection state is a name slot plus an open flag. A connection keeps its position in the client list for good. The module holds the broadcast rule, the four handlers, the frame dispatcher, and `Step`/`Run` over transport inputs (open, frame, close, error).
- `Invariants` (invariants.dfy): the consistency the relay keeps. A name is a registry key exactly when one open connection is bound to it. The module proves which steps preserve it.
- `Properties` (properties.dfy): the cross-step facts:
  - only register adds entries, and only exit or disconnect removes them;
  - a repeated close/error is a no-op when no input in between registers the connection's stale name;
  - the two-client session runs through, step by step.
- `Findings` (findings.dfy): the two discrepancies listed below. Each has an as-written model and a corrected one.

The binding and the open flag are kept apart on purpose. `onDisconnect` deletes the registry entry but never clears `ws.userName`, so a closed connection keeps a stale name. That stale name is exactly what makes a repeated close/error signal dangerous (see Findings).

Two behaviours of the code worth stating plainly:

- A chat message reaches every bound open connection, the sender included (server.js:25-30, 75).
- Disconnect does not clear the connection's binding (server.js:106-115).

## Model

| member | source | states |
|---|---|---|
| `Registry.Put` | server.js:50 | Storing a record under a key that is not yet in the registry appends exactly one entry at the end of the insertion order. An existing key keeps its place. Afterwards the key maps to the new record. |
| `Registry.Delete` | server.js:63 | Deleting a key removes that key and no other: afterwards a name is a key iff it was one before and differs from the deleted name. |
| `Registry.DeleteWellFormed` | server.js:63 | Deletion keeps keys unique, keeps every record's name equal to its key, and keeps keys non-empty. |
| `Registry.DeleteCutsOneEntry` | server.js:63 | In a well-formed registry, deleting a present key cuts out exactly that entry. All other entries keep their relative order, so the snapshot order is otherwise unchanged. |
| `Registry.DeleteAbsent` | server.js:109-113 | Deleting a name that is not a key leaves the registry unchanged. |
| `Registry.AppendFresh` | server.js:45-50 | Adding a fresh non-empty name with the record `{name}` keeps the registry well formed and makes that name the last key. The key set grows by that name alone. |
| `Registry.SnapshotNamesAreKeys` | server.js:54 | The `Object.values(users)` snapshot lists, position by position, the names that are the registry's keys. |
| `Server.Fanout` | server.js:25-30 | From a given position in the client list onwards, each push of the broadcast loop carries the one event and goes to a connection that is bound with a truthy name and open. Every such connection gets one push, in client-list order. |
| `Server.FanoutConsEligible` | server.js:25-30 | When the connection at the current position is bound and open, the loop pushes to it first and then continues with the rest of the list. |
| `Server.FanoutConsSkipped` | server.js:27-28 | The loop skips a connection at the current position that is anonymous or not open, pushing nothing for it. |
| `Server.Broadcast` | server.js:25-30 | `broadcastData` meets the reference definition `IsBroadcast`. Anonymous or closed connections never receive it. Every bound open connection receives the same single event once. |
| `Server.FanoutUnique` | server.js:25-30 | Any push sequence with the three broadcast properties over the clients from a given position onwards equals the broadcast loop's output. |
| `Server.BroadcastIsUnique` | server.js:25-30 | `IsBroadcast` determines the pushes completely: the broadcast is the only sequence that meets it. |
| `Server.Admit` | server.js:50-54 | Storing a fresh non-empty name appends exactly the entry `{name}` and binds the connection. The reply `ok register user` goes first, then the full users list is broadcast, the registrant included when open. |
| `Server.OnRegister` | server.js:32-55 | The checks run in order: "Already registered", then "Name cannot be empty" for a missing or empty name, then "Name already exists" for a name that is a registry key or a property name inherited from `Object.prototype` (as `users[name]` reads it). A refusal sends one error reply to the sender only and leaves the registry and bindings untouched. On success the registry gains exactly the entry `{name}` at the end, and the connection is bound. The reply `ok register user` goes first, then the full users list is broadcast. The registrant is among the recipients when its connection is open. |
| `Server.OnExit` | server.js:57-67 | An unbound connection, or one whose name is no longer a key, gets "Not registered" and nothing changes. Otherwise exactly that name leaves the registry and the connection is unbound. The reply `ok exit` goes first, then the remaining list is broadcast. The exiting connection is not a recipient. |
| `Server.OnSend` | server.js:69-76 | Send never changes the registry or any binding. An unregistered sender gets "Not registered" and nothing is broadcast. Otherwise every bound open connection, the sender included, receives one message event. The event carries the sender's bound name, the client's data and the server's timestamp. |
| `Server.Dispatch` | server.js:82-104 | A binary frame is dropped: no reply, no change. A type other than register, exit or send gets one "Invalid command" error echoing that type, with no change. Send never changes state. Any direct reply goes to the sender and comes before every broadcast push. |
| `Server.OnDisconnect` | server.js:106-115 | When the connection is unbound, or its name is already absent from the registry, nothing is removed and nothing is sent. Otherwise exactly that name is removed and the remaining list is broadcast to the bound open connections. Either way the connection's binding is kept. |
| `Server.MarkClosed` | server.js:122-123 | A close or error signal takes exactly that connection out of the open state. Its binding and every other connection stay as they were. |
| `Server.Disconnect` | server.js:122-123 | A close or error signal for a known connection marks it not open and keeps its binding; other connections are untouched. When the connection is not registered, nothing is removed or sent. Otherwise exactly its name leaves the registry and the remaining list is broadcast to the bound open connections, never to the closing one. A signal for an unknown connection changes nothing. |
| `Server.Step` | server.js:119-124 | A new connection is anonymous and open and causes no pushes. No input ever reopens a closed connection. |
| `Invariants.InitInv` | server.js:22 | The empty registry with no connections satisfies the registry/connection invariant. |
| `Invariants.BindFreshKeepsInv` | server.js:45-51 | Binding an anonymous open connection to a free non-empty name added to the registry keeps the invariant. |
| `Invariants.RegisterKeepsInv` | server.js:32-55 | Register from an open connection keeps the invariant: names stay unique, every registry key has exactly one open holder, and every open bound name is a key. |
| `Invariants.ExitKeepsInv` | server.js:57-67 | Exit from an open connection keeps the invariant. |
| `Invariants.DisconnectKeepsInv` | server.js:106-115 | A close or error signal keeps the invariant unless it is the hazard: a connection already closed whose stale name has been registered again. |
| `Invariants.StepKeepsInv` | server.js:82-123 | Every transport input except the hazardous repeated disconnect keeps the invariant. |
| `Invariants.RunKeepsInv` | server.js:119-124 | Every run of inputs without a hazardous repeated disconnect keeps the invariant. |
| `Invariants.StepKeepsWellFormed` | server.js:45-63 | Every input, a hazardous repeated disconnect included, keeps the registry well formed: keys distinct and non-empty, each record named by its key. |
| `Invariants.RunKeepsWellFormed` | server.js:119-124 | Every run of inputs, with no restriction, keeps the registry well formed. |
| `Invariants.StepKeepsNoInheritedBinding` | server.js:45-51 | No input binds a connection to a name inherited from `Object.prototype`, because register binds only names its lookup found untaken. |
| `Invariants.RunKeepsNoInheritedBinding` | server.js:119-124 | Every run from a state without inherited bindings ends in one without them. |
| `Invariants.RegisteredIsAsWritten` | server.js:58 | Without inherited bindings, the own-key test `Registered` used by exit, send and disconnect gives the same answer as `users[ws.userName]` in the code, which also reads inherited names. |
| `Properties.OnlyRegisterAdds` | server.js:45-50 | Register is the only input that adds a registry key, and the key it adds is the name it was given. |
| `Properties.OnlyExitOrDisconnectRemoves` | server.js:57-115 | Only an exit frame or a close/error signal can remove a registry key. |
| `Properties.ClosedConnectionUnchanged` | server.js:106-115 | Once closed, a connection's state, its stale name included, is never changed by any input. |
| `Properties.DisconnectLeavesUnregistered` | server.js:106-115 | After its first close or error, a connection is closed, keeps its name, and that name is no longer a registry key. |
| `Properties.StaysUnregistered` | server.js:106-115 | A closed, unregistered connection stays so through any inputs that do not register its stale name. |
| `Properties.RepeatedDisconnectIsNoOp` | server.js:106-123 | A second close or error for a connection is a no-op, with no removal and no push, provided no intervening input registered its name. |
| `Properties.FanoutToBoth` | server.js:25-30 | With two bound open connections, a broadcast goes to the first, then the second. |
| `Properties.SessionOpens` | server.js:119-124 | Two new connections on a fresh server are anonymous and open, and nothing is pushed. |
| `Properties.FanoutToFirst` | server.js:25-30 | With the first of two open connections bound and the second anonymous, a broadcast goes to the first alone. |
| `Properties.AliceAdmittedState` | server.js:50-51 | A's registration of "alice" on an empty registry stores the single entry and binds connection 0. |
| `Properties.AliceAdmittedOut` | server.js:53-54 | A's registration of "alice" replies to A, then pushes `[alice]` to A alone. |
| `Properties.AliceRegisterHandler` | server.js:32-55 | The register handler's result for the first registration of "alice". |
| `Properties.SessionAliceRegisters` | server.js:32-55 | A registers "alice": A gets `ok register alice`, then the list `[alice]`. |
| `Properties.SessionNameTaken` | server.js:45-48 | B's register of the taken name "alice" gets "Name already exists" and nothing changes. |
| `Properties.BobNameFree` | server.js:45 | "bob" is neither a key of the registry `[alice]` nor an inherited property name. |
| `Properties.BobAdmittedState` | server.js:50-51 | B's registration of "bob" appends the entry after "alice" and binds connection 1. |
| `Properties.BobAdmittedOut` | server.js:53-54 | B's registration of "bob" replies to B, then pushes `[alice, bob]` to A and then B. |
| `Properties.BobRegisterHandler` | server.js:32-55 | The register handler's result for B's registration of "bob". |
| `Properties.SessionBobRegisters` | server.js:50-54 | B registers "bob": B gets `ok register bob`, then A and B each receive `[alice, bob]` in registration order. |
| `Properties.SessionAliceSends` | server.js:69-76 | A's send reaches A and B as a message from "alice" with A's data. It carries the server's timestamp even when the client supplied its own `created`. |
| `Findings.OnRegisterOwnKeys` | server.js:32-55 | Corrected register: it behaves as `OnRegister` unless an anonymous connection asks for an inherited property name. It accepts every non-empty name that is not a registry key, appending `{name}` and binding the connection. It touches no connection but the sender's. |
| `Findings.InheritedNameRefused` | server.js:45-48 | On a fresh server, a register frame for "toString" is refused with "Name already exists" although the registry is empty. The corrected handler accepts it. |
| `Findings.NameExistsOnlyForHeldNames` | server.js:45-48 | Corrected: "Name already exists" is answered exactly when an anonymous connection asks for a non-empty name that is a registry key. Both directions hold. |
| `Findings.RegisterOwnKeysKeepsInv` | server.js:32-55 | The corrected register, from an open connection, keeps the invariant. |
| `Findings.StaleFirstCleanup` | server.js:109-114 | The cleanup after A's error deletes "alice" and pushes nothing, since no connection is both bound and open. |
| `Findings.StaleFirstDisconnect` | server.js:106-115 | An error signal for A, registered as "alice", removes the entry but leaves A's name in place. |
| `Findings.StaleReAdmittedOut` | server.js:53-54 | B's registration of the freed name replies to B, then pushes `[alice]` to B alone, since A is closed. |
| `Findings.StaleReRegisterHandler` | server.js:32-55 | The register handler's result for B's registration of the freed name "alice". |
| `Findings.StaleReRegister` | server.js:32-55 | B can then register the freed name "alice". |
| `Findings.StaleSecondCleanup` | server.js:109-114 | The cleanup for A's close finds "alice" registered again, deletes it and sends the empty list to B. |
| `Findings.StaleSecondDisconnect` | server.js:109-114 | A's later close signal passes the guard with its stale name and deletes B's entry. This breaks the invariant: B is open and bound to a name the registry lacks. |
| `Findings.StaleOwnerStranded` | server.js:32-76 | After that, B is refused on every command: send and exit get "Not registered", and register gets "Already registered". |
| `Findings.OnDisconnectUnbinding` | server.js:106-115 | Corrected cleanup: it also clears the connection's name. It removes only a still-registered name, and broadcasts the remaining list to the bound open connections. |
| `Findings.DisconnectFixedKeepsInv` | server.js:106-115 | The corrected cleanup keeps the invariant, including the rule that closed connections hold no name, for every close or error signal, repeated ones included. |
| `Findings.StepFixedKeepsInv` | server.js:82-123 | With both corrections, the own-key register and the unbinding cleanup, every input keeps the invariant. |
| `Findings.RunFixedKeepsInv` | server.js:119-124 | With both corrections, the own-key register and the unbinding cleanup, every run keeps the invariant; no hazard needs excluding. |
| `Findings.ClosedStaysUnbound` | server.js:106-115 | With the corrections, a closed unbound connection stays so forever. |
| `Findings.RepeatedDisconnectFixedIsNoOp` | server.js:106-123 | With both corrections, from any state, a second close or error for a connection is a no-op whatever happened in between. |

## Findings

| source | as written | input that shows it | evidently intended | confidence | as-written member | corrected member |
|---|---|---|---|---|---|---|
| server.js:45 | `users[name]` reads inherited properties of the plain object, so names such as "toString", "constructor" or "__proto__" count as taken | an empty registry and a register of "toString" get "Name already exists" (`InheritedNameRefused`) | "Name already exists" only for names a user holds, that is, own keys | high; not executed | `Server.OnRegister` | `Findings.OnRegisterOwnKeys` |
| server.js:106-115 | cleanup deletes `users[ws.userName]` but keeps `ws.userName`, and both the error and the close signal run it | A registers "alice"; A errors; B registers "alice"; A's close arrives. B's entry is deleted, and B is left bound to a name the registry lacks, refused on every command (`StaleSecondDisconnect`, `StaleOwnerStranded`) | cleanup releases a connection's name exactly once, and a repeated close/error is a no-op | medium (needs another registration between a connection's error and close signals); not executed | `Server.OnDisconnect` | `Findings.OnDisconnectUnbinding` |

`Step` follows the code in both places. Its register refuses inherited names (`NameTaken`), and its cleanup keeps the stale binding. `StepFixed` is the same machine with both corrections: register through `OnRegisterOwnKeys`, whose both-directions property is `NameExistsOnlyForHeldNames`, and cleanup through `OnDisconnectUnbinding`. The invariant holds for `StepFixed` on every run (`RunFixedKeepsInv`). For `Step` it holds on runs without the hazard (`RunKeepsInv`), and well-formedness of the registry holds on every run (`RunKeepsWellFormed`).

Exit, send and disconnect also test `users[ws.userName]`, which reads inherited names. No reachable state binds an inherited name (`RunKeepsNoInheritedBinding`), and in such states that test agrees with the own-key `Registered` the model uses (`RegisteredIsAsWritten`).

## Left out

- HTTP server, Express, CORS and body-parser middleware, port configuration and bootstrap (server.js:1-20, 117-138): transport plumbing with no logic. Only the wiring of connection, message, close and error events (119-124) is modelled, as `Step`.
- Logging (`logMessage`, `console.log`): no effect on state.
- JSON parsing and serialization: inbound frames are already-decoded `Msg` values, and outbound events are `Event` values. A frame that fails to parse makes `JSON.parse` throw at server.js:87; that path is not modelled.
- Frames whose JSON is not an object: a frame that parses to `null` throws when `msg.type` is read (server.js:90), and that path is not modelled. Other non-object values, such as numbers, strings or arrays, read `type` as undefined and behave as a `Msg` with no fields, which is modelled.
- Non-string `type` values: the `default` branch echoes `msg.type` as it is, so a type of `5` comes back as `command: 5` (server.js:101). `Msg.typ` is an optional string, so such a value cannot be expressed; only string and missing types are modelled.
- Non-string `user.name` values: a name is modelled as an optional string. A truthy non-string name, such as a number, would be stored as a string key with a non-string record; that is not modelled.
- Numbers in `data`: they are integers in the `Json` datatype. Floating point is not modelled.
- The clock: `new Date().toISOString()` is the `now` parameter of each frame input.
- Delivery: `ws.send` is appending a push to the output list. Send failures and backpressure are not modelled. `readyState` is one flag, and CLOSING and CLOSED are both "not open".
- Client list: the server library drops closed clients from `wsServer.clients`. The model keeps them, marked not open. `broadcastData` filters on OPEN, so recipients are the same, and the stale binding stays visible.
- Transport guarantees: a frame on a connection that is not open, or an input for an unknown connection, cannot be delivered. `Step` treats such inputs as no-ops.
- Concurrency: Node runs each handler atomically, so inputs form a sequential trace.
- Key order of JavaScript objects: `Object.values` lists integer-like keys first, in numeric order. The registry is modelled in plain insertion order.
