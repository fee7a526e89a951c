/** The best-effort pushes the routes make after a change: compute a projection, serialise it into
    a `MessageToClient`, hand it to the registry. A projection that fails or does not serialise is
    only logged, so nothing is sent. Handing a message to the registry is modelled as the registry
    handling it at once. */
module Notify {
  import opened Errors
  import opened Models
  import opened Auth
  import opened Handlers
  import opened Registry
  import opened Db

  /** The message a push hands to the registry, if its projection succeeded and serialises. */
  function Notification(path: string, payload: Result<Payload>, gameId: int, io: Io): (n: Option<MessageToClient>)
    ensures n.Some? <==> payload.Ok? && io.toValue(payload.value)
    ensures n.Some? ==> n.value == MessageToClient(path, payload.value, gameId)
  {
    if payload.Ok? && io.toValue(payload.value) then Some(MessageToClient(path, payload.value, gameId)) else None
  }

  /** The sends the registry makes for a pushed message, given its maps. */
  function Published(gameToSessions: map<int, seq<string>>, sessions: map<string, Session>, n: Option<MessageToClient>, io: Io): seq<Delivery> {
    match n
    case None => []
    case Some(msg) => Fanout(IdsOf(gameToSessions, msg.gameId), sessions, io.toText(msg), io.deliver)
  }

  function GameStatusPayload(t: Tables, gameId: int): Result<Payload> {
    var status :- GameStatus(t, gameId);
    Ok(GameStatusData(status))
  }

  function RoundStatusPayload(t: Tables, role: Role, userId: int, gameId: int): Result<Payload> {
    var status :- RoundStatus(t, role, userId, gameId);
    Ok(RoundStatusData(status))
  }

  function PicksPayload(t: Tables, gameId: int): Result<Payload> {
    var picks :- RoundPicks(t, gameId);
    Ok(PicksData(picks))
  }

  /** `send_game_status`'s message. */
  function GameStatusNote(t: Tables, gameId: int, io: Io): Option<MessageToClient> {
    Notification("/game-status", GameStatusPayload(t, gameId), gameId, io)
  }

  /** `send_round_status`'s message. */
  function RoundStatusNote(t: Tables, role: Role, userId: int, gameId: int, io: Io): Option<MessageToClient> {
    Notification("/round-status", RoundStatusPayload(t, role, userId, gameId), gameId, io)
  }

  /** The `/picks` message of `save_picks`. */
  function PicksNote(t: Tables, gameId: int, io: Io): Option<MessageToClient> {
    Notification("/picks", PicksPayload(t, gameId), gameId, io)
  }

  /** The `/players` message of `join`: the roster always computes, so only serialisation can stop it. */
  function PlayersNote(t: Tables, gameId: int, io: Io): Option<MessageToClient> {
    Notification("/players", Ok(Players(UsersOfGame(t, gameId))), gameId, io)
  }

  /** A game-status push for a game that exists carries its status, if it serialises. */
  lemma GameStatusNoteForExistingGame(t: Tables, gameId: int, io: Io)
    requires FindGameById(t, gameId).Ok?
    requires io.toValue(GameStatusData(GameStatus(t, gameId).value))
    ensures GameStatusNote(t, gameId, io) == Some(MessageToClient("/game-status", GameStatusData(GameStatus(t, gameId).value), gameId))
  {
  }

  /** A push for a game that does not exist sends nothing. */
  lemma NoGameNoStatus(t: Tables, gameId: int, io: Io)
    requires FindGameById(t, gameId).Err?
    ensures GameStatusNote(t, gameId, io) == None
  {
  }

  /** Hand a message, if there is one, to the registry. */
  method Publish(server: Server, n: Option<MessageToClient>, io: Io)
    modifies server
    ensures server.sessions == old(server.sessions) && server.gameToSessions == old(server.gameToSessions)
    ensures server.outbox == old(server.outbox) + Published(server.gameToSessions, server.sessions, n, io)
  {
    if n.Some? {
      server.HandleMessageToClient(n.value, io);
    }
  }

  /** `client_messages::send_game_status`. */
  method SendGameStatus(server: Server, store: Store, gameId: int, io: Io)
    modifies server
    ensures server.sessions == old(server.sessions) && server.gameToSessions == old(server.gameToSessions)
    ensures server.outbox == old(server.outbox) + Published(server.gameToSessions, server.sessions, GameStatusNote(store.Tables(), gameId, io), io)
  {
    Publish(server, GameStatusNote(store.Tables(), gameId, io), io);
  }

  /** `client_messages::send_round_status`. */
  method SendRoundStatus(server: Server, store: Store, role: Role, userId: int, gameId: int, io: Io)
    modifies server
    ensures server.sessions == old(server.sessions) && server.gameToSessions == old(server.gameToSessions)
    ensures server.outbox == old(server.outbox)
      + Published(server.gameToSessions, server.sessions, RoundStatusNote(store.Tables(), role, userId, gameId, io), io)
  {
    Publish(server, RoundStatusNote(store.Tables(), role, userId, gameId, io), io);
  }
}
