/** One client connection (`WebSocketSession`): the heartbeat rule, the dispatch of inbound frames,
    and the `/auth` command. Time is a clock in milliseconds; what the session sends to the client
    and to the registry is recorded in two queues. */
module WsSession {
  import opened Errors
  import opened Text

  /** How often the heartbeat check runs, in milliseconds. */
  const HeartbeatInterval := 5000

  /** How long a client may stay silent, in milliseconds. */
  const ClientTimeout := 30000

  datatype CloseReason = CloseReason(code: int, description: Option<string>)

  /** The frames of the WebSocket protocol as the framework delivers them. */
  datatype WsMessage =
    | Text(text: string)
    | Binary(data: seq<bv8>)
    | Continuation
    | Ping(payload: seq<bv8>)
    | Pong(payload: seq<bv8>)
    | Close(reason: Option<CloseReason>)
    | Nop

  /** A decoded frame, or the framework's protocol error. */
  datatype Inbound = Received(message: WsMessage) | ProtocolError(description: string)

  /** Frames the session writes to its client. */
  datatype Outgoing =
    | TextFrame(text: string)
    | BinaryFrame(data: seq<bv8>)
    | PingFrame(payload: seq<bv8>)
    | PongFrame(payload: seq<bv8>)
    | CloseFrame(reason: Option<CloseReason>)

  /** Messages the session sends to the registry. */
  datatype ToServer = ConnectMsg(id: string) | AuthMsg(id: string, token: string) | DisconnectMsg(id: string)

  /** What a text frame asks for. `AuthWithoutArgument` is a bare "/auth", on which the handler
      indexes past the end of its split and panics. */
  datatype Command = NotACommand | AuthCommand(argument: string) | AuthWithoutArgument | UnknownCommand(reply: string)

  const AuthPrefix := "/auth "

  /** The classification of a text frame: trimmed, acted on only when it starts with '/', split at
      its first space, "/auth" recognised as the first word. */
  function Classify(text: string): (c: Command)
    ensures var m := Trim(text);
      && (c.NotACommand? <==> (m == [] || m[0] != '/'))
      && (c.AuthWithoutArgument? <==> m == "/auth")
      && (c.AuthCommand? <==> AuthPrefix <= m)
      && (c.AuthCommand? ==> m == AuthPrefix + c.argument)
      && (c.UnknownCommand? ==> c.reply == "unknown command " + DebugString(m))
  {
    var m := Trim(text);
    if m == [] || m[0] != '/' then NotACommand
    else
      var args := SplitAtFirstSpace(m);
      AuthWordLemma(m, args);
      if args[0] == "/auth" then
        if |args| == 2 then AuthCommand(args[1]) else AuthWithoutArgument
      else UnknownCommand("unknown command " + DebugString(m))
  }

  /** The first word of a split is "/auth" with a rest exactly when the string starts with "/auth ",
      and is "/auth" alone exactly when the string is "/auth". */
  lemma AuthWordLemma(m: string, args: seq<string>)
    requires args == SplitAtFirstSpace(m)
    ensures (args[0] == "/auth" && |args| == 2) <==> AuthPrefix <= m
    ensures args[0] == "/auth" && |args| == 2 ==> args[1] == m[|AuthPrefix|..]
    ensures (args[0] == "/auth" && |args| == 1) <==> m == "/auth"
  {
    if AuthPrefix <= m {
      assert m[5] == ' ';
      assert |args| == 2;
      var p := args[0];
      assert m == p + " " + args[1];
      assert |p| <= 5;
      assert m[0] != ' ' && m[1] != ' ' && m[2] != ' ' && m[3] != ' ' && m[4] != ' ';
      assert m[|p|] == ' ';
      assert p == m[..5];
      assert m[6..] == args[1];
    }
    if args[0] == "/auth" && |args| == 2 {
      assert m == "/auth" + " " + args[1];
      assert m[..6] == AuthPrefix;
    }
  }

  /** The heartbeat rule: strictly more than the timeout since the last sign of life. */
  predicate TimedOut(now: int, lastHeartbeat: int) {
    now - lastHeartbeat > ClientTimeout
  }

  /** Once timed out, a client stays timed out until it is heard from again. */
  lemma TimeoutPersists(now: int, later: int, lastHeartbeat: int)
    requires TimedOut(now, lastHeartbeat) && later >= now
    ensures TimedOut(later, lastHeartbeat)
  {
  }

  /** A client heard from at `lastHeartbeat` survives every check up to exactly 30 seconds later
      and fails the first check after that. */
  lemma TimeoutBoundary(lastHeartbeat: int)
    ensures !TimedOut(lastHeartbeat + ClientTimeout, lastHeartbeat)
    ensures TimedOut(lastHeartbeat + ClientTimeout + 1, lastHeartbeat)
  {
  }

  class WebSocketSession {
    const id: string
    var hb: int
    var toClient: seq<Outgoing>
    var toServer: seq<ToServer>
    var stopped: bool

    /** `WebSocketSession::new`: `freshId` stands for the generated UUID, `now` for the clock. */
    constructor (freshId: string, now: int)
      ensures id == freshId && hb == now
      ensures toClient == [] && toServer == [] && !stopped
    {
      id := freshId;
      hb := now;
      toClient, toServer := [], [];
      stopped := false;
    }

    /** `started`: register with the registry; stop when the registry could not be reached. */
    method Started(connectDelivered: bool)
      requires !stopped
      modifies this
      ensures toServer == old(toServer) + [ConnectMsg(id)]
      ensures stopped == !connectDelivered
      ensures hb == old(hb) && toClient == old(toClient)
    {
      toServer := toServer + [ConnectMsg(id)];
      if !connectDelivered {
        stopped := true;
      }
    }

    /** One run of the heartbeat interval at time `now`. */
    method HeartbeatTick(now: int)
      requires !stopped
      modifies this
      ensures hb == old(hb)
      ensures TimedOut(now, old(hb)) ==>
        toServer == old(toServer) + [DisconnectMsg(id)] && stopped && toClient == old(toClient)
      ensures !TimedOut(now, old(hb)) ==>
        toClient == old(toClient) + [PingFrame([])] && !stopped && toServer == old(toServer)
    {
      if now - hb > ClientTimeout {
        toServer := toServer + [DisconnectMsg(id)];
        stopped := true;
        return;
      }
      toClient := toClient + [PingFrame([])];
    }

    /** The `Message` handler: registry text goes to the client unchanged. */
    method Forward(text: string)
      requires !stopped
      modifies this
      ensures toClient == old(toClient) + [TextFrame(text)]
      ensures hb == old(hb) && toServer == old(toServer) && stopped == old(stopped)
    {
      toClient := toClient + [TextFrame(text)];
    }

    /** The stream handler for one inbound frame at time `now`. `parseAuth` stands for parsing the
        `/auth` argument as `{"token": ...}`. Returns whether the handler panicked, which it does on a
        bare "/auth". */
    method Handle(inbound: Inbound, now: int, parseAuth: string -> Option<string>) returns (panicked: bool)
      requires !stopped
      modifies this
      ensures inbound.Received? && inbound.message.Ping? ==>
        !panicked && hb == now && toClient == old(toClient) + [PongFrame(inbound.message.payload)]
        && toServer == old(toServer) && !stopped
      ensures inbound.Received? && inbound.message.Pong? ==>
        !panicked && hb == now && toClient == old(toClient) && toServer == old(toServer) && !stopped
      ensures inbound.Received? && inbound.message.Text? ==>
        var c := Classify(inbound.message.text);
        && hb == old(hb) && !stopped
        && (panicked <==> c.AuthWithoutArgument?)
        && (c.NotACommand? || c.AuthWithoutArgument? ==> toClient == old(toClient) && toServer == old(toServer))
        && (c.UnknownCommand? ==> toClient == old(toClient) + [TextFrame(c.reply)] && toServer == old(toServer))
        && (c.AuthCommand? && parseAuth(c.argument).Some? ==>
              toServer == old(toServer) + [AuthMsg(id, parseAuth(c.argument).value)] && toClient == old(toClient))
        && (c.AuthCommand? && parseAuth(c.argument).None? ==>
              toClient == old(toClient) + [TextFrame("Invalid request params")] && toServer == old(toServer))
      ensures inbound.Received? && inbound.message.Binary? ==>
        !panicked && toClient == old(toClient) + [BinaryFrame(inbound.message.data)]
        && hb == old(hb) && toServer == old(toServer) && !stopped
      ensures inbound.Received? && inbound.message.Close? ==>
        !panicked && toServer == old(toServer) + [DisconnectMsg(id)]
        && toClient == old(toClient) + [CloseFrame(inbound.message.reason)] && hb == old(hb) && stopped
      ensures inbound.ProtocolError? || inbound.message.Continuation? || inbound.message.Nop? ==>
        !panicked && stopped && hb == old(hb) && toClient == old(toClient) && toServer == old(toServer)
    {
      panicked := false;
      match inbound {
        case ProtocolError(_) =>
          stopped := true;
        case Received(message) =>
          match message {
            case Ping(payload) =>
              hb := now;
              toClient := toClient + [PongFrame(payload)];
            case Pong(_) =>
              hb := now;
            case Text(text) =>
              match Classify(text) {
                case NotACommand =>
                case AuthWithoutArgument =>
                  panicked := true;
                case AuthCommand(argument) =>
                  match parseAuth(argument) {
                    case Some(token) =>
                      toServer := toServer + [AuthMsg(id, token)];
                    case None =>
                      toClient := toClient + [TextFrame("Invalid request params")];
                  }
                case UnknownCommand(reply) =>
                  toClient := toClient + [TextFrame(reply)];
              }
            case Binary(data) =>
              toClient := toClient + [BinaryFrame(data)];
            case Close(reason) =>
              toServer := toServer + [DisconnectMsg(id)];
              toClient := toClient + [CloseFrame(reason)];
              stopped := true;
            case Continuation =>
              stopped := true;
            case Nop =>
              stopped := true;
          }
      }
    }
  }

  /** Text that does not start with '/' after trimming is ignored, whatever it says. */
  lemma PlainTextIsIgnored(text: string)
    requires Trim(text) == [] || Trim(text)[0] != '/'
    ensures Classify(text) == NotACommand
  {
  }

  /** "/auth" followed by a space and an argument is an auth command carrying that argument, whatever
      whitespace surrounds the frame. */
  lemma AuthCommandCarriesArgument(arg: string, lead: string, trail: string)
    requires forall i :: 0 <= i < |lead| ==> IsWhitespace(lead[i])
    requires forall i :: 0 <= i < |trail| ==> IsWhitespace(trail[i])
    requires arg != [] && !IsWhitespace(arg[|arg| - 1])
    ensures Classify(lead + AuthPrefix + arg + trail) == AuthCommand(arg)
  {
    var text := lead + AuthPrefix + arg + trail;
    var core := AuthPrefix + arg;
    assert text == lead + core + trail;
    TrimAround(lead, core, trail);
    assert core[..|AuthPrefix|] == AuthPrefix;
    var c := Classify(text);
    assert c.AuthCommand?;
    assert core == AuthPrefix + c.argument;
    assert arg == core[|AuthPrefix|..] == c.argument;
  }

  /** An unknown command is echoed in its escaped form: a control character in it is written as a
      `\u{...}` escape, not sent raw. */
  lemma UnknownCommandIsEscaped()
    ensures Classify("/x\U{1}") == UnknownCommand("unknown command \"/x\\u{1}\"")
  {
    var m := "/x\U{1}";
    TrimAround([], m, []);
    assert [] + m + [] == m;
    assert ' ' !in m;
    DebugStringOfControl();
  }
}
