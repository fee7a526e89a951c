/** The live-session registry (`websocket::Server`): which connection is which session, which
    sessions follow which game, and the fan-out of a message to a game's sessions. Every send the
    registry makes is recorded in a ghost outbox, successful or not. */
module Registry {
  import opened Errors
  import opened Models
  import opened Auth
  import opened Handlers
  import opened Db

  /** The payloads that travel to clients, before serialisation. */
  datatype Payload =
    | Players(users: seq<UserDetails>)
    | GameStatusData(status: StatusResponse)
    | RoundStatusData(roundStatus: RoundStatusResponse)
    | PicksData(picks: RoundPicksResponse)

  datatype MessageToClient = MessageToClient(path: string, data: Payload, gameId: int)

  /** The mailbox of one client connection. */
  datatype Addr = Addr(connection: nat)

  /** The registry's view of a connection: its mailbox and the token it authenticated with. */
  datatype Session = Session(addr: Addr, token: Option<string>)

  /** One attempted send: to whom, through which mailbox, what text, and whether the mailbox took it. */
  datatype Delivery = Delivery(sessionId: string, addr: Addr, text: string, delivered: bool)

  /** Serialisation and mailbox delivery, which the model does not look into: whether `to_value`
      succeeds on a payload, what `to_string` makes of a message, and whether `do_send` succeeds. */
  datatype Io = Io(toValue: Payload -> bool, toText: MessageToClient -> Option<string>, deliver: (Addr, string) -> bool)

  /** The session ids listed for a game, none when the game has no list. */
  function IdsOf(gameToSessions: map<int, seq<string>>, gameId: int): seq<string> {
    if gameId in gameToSessions then gameToSessions[gameId] else []
  }

  /** The send attempted for one listed id: none when the session is gone or there is no text. */
  function SendTo(sessions: map<string, Session>, id: string, text: Option<string>, deliver: (Addr, string) -> bool): seq<Delivery> {
    if id in sessions && text.Some? then
      [Delivery(id, sessions[id].addr, text.value, deliver(sessions[id].addr, text.value))]
    else []
  }

  /** The sends of `send_msg_to_game_sessions` for a list of ids, in list order. */
  function Fanout(ids: seq<string>, sessions: map<string, Session>, text: Option<string>, deliver: (Addr, string) -> bool): (out: seq<Delivery>)
    ensures |out| <= |ids|
    decreases |ids|
  {
    if ids == [] then [] else Fanout(ids[..|ids| - 1], sessions, text, deliver) + SendTo(sessions, ids[|ids| - 1], text, deliver)
  }

  /** Appending an id to the list appends its send, if any, to the fan-out. */
  lemma FanoutSnoc(ids: seq<string>, id: string, sessions: map<string, Session>, text: Option<string>, deliver: (Addr, string) -> bool)
    ensures Fanout(ids + [id], sessions, text, deliver) == Fanout(ids, sessions, text, deliver) + SendTo(sessions, id, text, deliver)
  {
    assert (ids + [id])[..|ids|] == ids;
  }

  lemma {:induction false} FanoutAppend(a: seq<string>, b: seq<string>, sessions: map<string, Session>, text: Option<string>, deliver: (Addr, string) -> bool)
    ensures Fanout(a + b, sessions, text, deliver) == Fanout(a, sessions, text, deliver) + Fanout(b, sessions, text, deliver)
    decreases |b|
  {
    if b == [] {
      assert a + b == a;
    } else {
      var init, last := b[..|b| - 1], b[|b| - 1];
      assert a + b == (a + init) + [last];
      assert b == init + [last];
      FanoutSnoc(a + init, last, sessions, text, deliver);
      FanoutSnoc(init, last, sessions, text, deliver);
      FanoutAppend(a, init, sessions, text, deliver);
    }
  }

  /** Every send carries the text, goes to a listed id that still has a session, through that
      session's mailbox, and records whether the mailbox accepted it. */
  lemma {:induction false} FanoutSendsOnlyToLiveListedSessions(ids: seq<string>, sessions: map<string, Session>, text: Option<string>, deliver: (Addr, string) -> bool)
    ensures forall d :: d in Fanout(ids, sessions, text, deliver) ==>
      && text == Some(d.text) && d.sessionId in ids && d.sessionId in sessions && d.addr == sessions[d.sessionId].addr
      && d.delivered == deliver(d.addr, d.text)
    decreases |ids|
  {
    if ids != [] {
      var init := ids[..|ids| - 1];
      FanoutSendsOnlyToLiveListedSessions(init, sessions, text, deliver);
      assert forall x :: x in init ==> x in ids;
    }
  }

  /** Without text (a serialisation failure) nothing is sent at all. */
  lemma {:induction false} FanoutWithoutTextIsEmpty(ids: seq<string>, sessions: map<string, Session>, deliver: (Addr, string) -> bool)
    ensures Fanout(ids, sessions, None, deliver) == []
    decreases |ids|
  {
    if ids != [] {
      FanoutWithoutTextIsEmpty(ids[..|ids| - 1], sessions, deliver);
    }
  }

  function Occurrences(ids: seq<string>, id: string): nat
    decreases |ids|
  {
    if ids == [] then 0 else Occurrences(ids[..|ids| - 1], id) + (if ids[|ids| - 1] == id then 1 else 0)
  }

  function SendsTo(out: seq<Delivery>, id: string): nat
    decreases |out|
  {
    if out == [] then 0 else SendsTo(out[..|out| - 1], id) + (if out[|out| - 1].sessionId == id then 1 else 0)
  }

  lemma {:induction false} SendsToAppend(a: seq<Delivery>, b: seq<Delivery>, id: string)
    ensures SendsTo(a + b, id) == SendsTo(a, id) + SendsTo(b, id)
    decreases |b|
  {
    if b == [] {
      assert a + b == a;
    } else {
      assert (a + b)[..|a + b| - 1] == a + b[..|b| - 1];
      SendsToAppend(a, b[..|b| - 1], id);
    }
  }

  /** A live session gets one send per time its id is listed, a failed delivery to it or to anyone
      else notwithstanding: delivery does not stop at a failure and is not de-duplicated. */
  lemma {:induction false} FanoutSendsOncePerListing(ids: seq<string>, id: string, sessions: map<string, Session>, text: Option<string>, deliver: (Addr, string) -> bool)
    ensures SendsTo(Fanout(ids, sessions, text, deliver), id) == if id in sessions && text.Some? then Occurrences(ids, id) else 0
    decreases |ids|
  {
    if ids != [] {
      var init, last := ids[..|ids| - 1], ids[|ids| - 1];
      FanoutSendsOncePerListing(init, id, sessions, text, deliver);
      SendsToAppend(Fanout(init, sessions, text, deliver), SendTo(sessions, last, text, deliver), id);
      var one := SendTo(sessions, last, text, deliver);
      if one != [] {
        assert one[..0] == [];
      }
    }
  }

  /** What `Auth` does to the game lists: the session id is appended to the game's list, which is
      created empty first when missing. */
  function Bind(gameToSessions: map<int, seq<string>>, gameId: int, id: string): (m: map<int, seq<string>>)
    ensures m.Keys == gameToSessions.Keys + {gameId}
    ensures IdsOf(m, gameId) == IdsOf(gameToSessions, gameId) + [id]
    ensures forall g :: g != gameId ==> IdsOf(m, g) == IdsOf(gameToSessions, g)
  {
    gameToSessions[gameId := IdsOf(gameToSessions, gameId) + [id]]
  }

  /** Binding the same session twice to a game lists it twice: no de-duplication. */
  lemma BindTwiceListsTwice(gameToSessions: map<int, seq<string>>, gameId: int, id: string)
    ensures Occurrences(IdsOf(Bind(Bind(gameToSessions, gameId, id), gameId, id), gameId), id)
      == Occurrences(IdsOf(gameToSessions, gameId), id) + 2
  {
    var once := IdsOf(gameToSessions, gameId) + [id];
    assert (once + [id])[..|once|] == once;
    assert once[..|once| - 1] == IdsOf(gameToSessions, gameId);
  }

  /** A session listed twice receives every later broadcast to its game twice. */
  lemma DoubleBindMeansDoubleDelivery(gameToSessions: map<int, seq<string>>, gameId: int, id: string,
                                      sessions: map<string, Session>, text: string, deliver: (Addr, string) -> bool)
    requires id in sessions && Occurrences(IdsOf(gameToSessions, gameId), id) == 0
    ensures SendsTo(Fanout(IdsOf(Bind(Bind(gameToSessions, gameId, id), gameId, id), gameId), sessions, Some(text), deliver), id) == 2
  {
    BindTwiceListsTwice(gameToSessions, gameId, id);
    FanoutSendsOncePerListing(IdsOf(Bind(Bind(gameToSessions, gameId, id), gameId, id), gameId), id, sessions, Some(text), deliver);
  }

  /** The registry actor. */
  class Server {
    var sessions: map<string, Session>
    var gameToSessions: map<int, seq<string>>
    ghost var outbox: seq<Delivery>

    /** `Server::new`. */
    constructor ()
      ensures sessions == map[] && gameToSessions == map[] && outbox == []
    {
      sessions, gameToSessions := map[], map[];
      outbox := [];
    }

    /** The `Connect` handler: (re)register a connection with no token yet. */
    method Connect(id: string, addr: Addr)
      modifies this
      ensures sessions == old(sessions)[id := Session(addr, None)]
      ensures gameToSessions == old(gameToSessions) && outbox == old(outbox)
    {
      sessions := sessions[id := Session(addr, None)];
    }

    /** The `Disconnect` handler: forget the connection; the game lists keep its id. */
    method Disconnect(id: string)
      modifies this
      ensures sessions == old(sessions) - {id}
      ensures gameToSessions == old(gameToSessions) && outbox == old(outbox)
    {
      sessions := sessions - {id};
    }

    /** `send_msg_to_game_sessions`: one attempt per listed id that still has a session, in list
        order, and none at all when serialisation failed. */
    method SendToGameSessions(gameId: int, text: Option<string>, deliver: (Addr, string) -> bool)
      modifies this
      ensures sessions == old(sessions) && gameToSessions == old(gameToSessions)
      ensures outbox == old(outbox) + Fanout(IdsOf(gameToSessions, gameId), sessions, text, deliver)
    {
      if gameId in gameToSessions {
        var ids := gameToSessions[gameId];
        var i := 0;
        while i < |ids|
          invariant 0 <= i <= |ids|
          invariant sessions == old(sessions) && gameToSessions == old(gameToSessions)
          invariant outbox == old(outbox) + Fanout(ids[..i], sessions, text, deliver)
        {
          var id := ids[i];
          FanoutSnoc(ids[..i], id, sessions, text, deliver);
          assert ids[..i + 1] == ids[..i] + [id];
          if id in sessions {
            var session := sessions[id];
            if text.Some? {
              var delivered := deliver(session.addr, text.value);
              outbox := outbox + [Delivery(id, session.addr, text.value, delivered)];
            }
          }
          i := i + 1;
        }
        assert ids[..|ids|] == ids;
      }
    }

    /** The `MessageToClient` handler: serialise the whole message and fan it out to its game. */
    method HandleMessageToClient(msg: MessageToClient, io: Io)
      modifies this
      ensures sessions == old(sessions) && gameToSessions == old(gameToSessions)
      ensures outbox == old(outbox) + Fanout(IdsOf(gameToSessions, msg.gameId), sessions, io.toText(msg), io.deliver)
    {
      SendToGameSessions(msg.gameId, io.toText(msg), io.deliver);
    }

    /** The `Auth` handler. A token that does not decode, or a session id that is not registered,
        changes nothing. Otherwise the session records the token, joins the claim's game list (again,
        if it was there already), and the game's roster is sent to the game's sessions. When no
        connection can be had from the pool the error is returned after the binding. */
    method Auth(id: string, token: string, jwt: Jwt, store: Store, poolFailure: Option<string>, io: Io) returns (r: Result<()>)
      modifies this
      ensures jwt.decode(token).Failed? || id !in old(sessions) ==>
        r == Ok(()) && sessions == old(sessions) && gameToSessions == old(gameToSessions) && outbox == old(outbox)
      ensures jwt.decode(token).Done? && id in old(sessions) ==>
        var gameId := jwt.decode(token).value.gameId;
        var roster := Players(UsersOfGame(store.Tables(), gameId));
        && sessions == old(sessions)[id := Session(old(sessions)[id].addr, Some(token))]
        && gameToSessions == Bind(old(gameToSessions), gameId, id)
        && (poolFailure.Some? ==> r == Err(PoolError(poolFailure.value)) && outbox == old(outbox))
        && (poolFailure.None? && !io.toValue(roster) ==> r == Ok(()) && outbox == old(outbox))
        && (poolFailure.None? && io.toValue(roster) ==>
              && r == Ok(())
              && outbox == old(outbox) + Fanout(IdsOf(gameToSessions, gameId), sessions,
                                                io.toText(MessageToClient("/players", roster, gameId)), io.deliver))
    {
      var claim := DecodeJwt(jwt, token);
      if claim.Err? {
        return Ok(());
      }
      if id !in sessions {
        return Ok(());
      }
      sessions := sessions[id := sessions[id].(token := Some(token))];
      var gameId := claim.value.gameId;
      if gameId !in gameToSessions {
        gameToSessions := gameToSessions[gameId := []];
      }
      gameToSessions := gameToSessions[gameId := gameToSessions[gameId] + [id]];
      if poolFailure.Some? {
        return Err(FromPoolError(poolFailure.value));
      }
      var roster := Players(UsersOfGame(store.Tables(), gameId));
      if io.toValue(roster) {
        var msg := MessageToClient("/players", roster, gameId);
        SendToGameSessions(msg.gameId, io.toText(msg), io.deliver);
      }
      r := Ok(());
    }
  }

  /** After a successful `Auth`, the newcomer is among the recipients of the roster it triggered. */
  lemma NewcomerReceivesRoster(gameToSessions: map<int, seq<string>>, gameId: int, id: string,
                               sessions: map<string, Session>, text: string, deliver: (Addr, string) -> bool)
    requires id in sessions
    ensures exists d :: d in Fanout(IdsOf(Bind(gameToSessions, gameId, id), gameId), sessions, Some(text), deliver) && d.sessionId == id
  {
    var ids := IdsOf(gameToSessions, gameId);
    FanoutSnoc(ids, id, sessions, Some(text), deliver);
    var d := Delivery(id, sessions[id].addr, text, deliver(sessions[id].addr, text));
    assert d in SendTo(sessions, id, Some(text), deliver);
  }

  /** A disconnected session keeps its place in the game lists but is skipped by every fan-out. */
  lemma DisconnectedSessionIsSkipped(ids: seq<string>, sessions: map<string, Session>, id: string, text: Option<string>, deliver: (Addr, string) -> bool)
    ensures SendsTo(Fanout(ids, sessions - {id}, text, deliver), id) == 0
  {
    FanoutSendsOncePerListing(ids, id, sessions - {id}, text, deliver);
  }
}
