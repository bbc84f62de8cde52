/** The wire protocol of the relay, after JSON decoding: what a client
    sends (a frame carrying a decoded message) and what the server sends
    back (a direct reply or a broadcast event), in `server.js`. */
module Protocol {
  import opened Wrappers

  /** A JSON value as it is carried, untouched, in the `data` field of a
      chat message. Numbers are integers in this model. */
  datatype Json =
    | JNull
    | JBool(b: bool)
    | JNum(n: int)
    | JStr(s: string)
    | JArray(items: seq<Json>)
    | JObject(fields: seq<(string, Json)>)

  /** The fields of a parsed inbound object that the server reads:
      `type`, `user.name`, `data`, and a client-supplied `created` that the
      server overwrites. `None` stands for a missing (`undefined`) field. */
  datatype Msg = Msg(typ: Option<string>, name: Option<string>, data: Option<Json>, created: Option<Json>)

  /** One frame from the transport: binary frames are not decoded. */
  datatype Frame = Binary | Text(msg: Msg)

  /** The server's clock reading, an ISO-8601 string it does not inspect. */
  type Timestamp = string

  /** A connection is named by its position in the server's client list. */
  type ConnId = nat

  /** Why a command was refused. */
  datatype Reason = AlreadyRegistered | NameEmpty | NameExists | NotRegistered | InvalidCommand

  /** The `reason` string each refusal carries on the wire. */
  function ReasonText(r: Reason): string
  {
    match r
    case AlreadyRegistered => "Already registered"
    case NameEmpty => "Name cannot be empty"
    case NameExists => "Name already exists"
    case NotRegistered => "Not registered"
    case InvalidCommand => "Invalid command"
  }

  /** A user record `{name}`, the value stored in the registry. */
  datatype User = User(name: string)

  /** An outbound event. `OkRegister`, `OkExit` and `Error` are direct
      replies; `Users` and `Message` are broadcasts. `Error.command` echoes
      the inbound `type`, which may be missing. */
  datatype Event =
    | OkRegister(user: string)
    | OkExit
    | Error(command: Option<string>, reason: Reason)
    | Users(users: seq<User>)
    | Message(from: string, data: Option<Json>, created: Timestamp)

  /** One serialized event pushed to one connection. */
  datatype Out = Out(to: ConnId, event: Event)
}
