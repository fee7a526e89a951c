/** The game routes: joining a game by its slug, and creating a game with its question list inside
    one transaction. */
module GameRoutes {
  import opened Errors
  import opened Models
  import opened Auth
  import opened Slug
  import opened Registry
  import opened Db
  import opened Notify
  import opened Validation
  import RoundRoutes

  // ---------------------------------------------------------------- join

  /** The rules of `JoinRequest`: a name of at least 3 characters, a slug of exactly 6. */
  function JoinRules(name: string, slug: string): seq<Rule> {
    [Rule("name", |name| >= 3), Rule("slug", |slug| == SlugLength)]
  }

  /** The guards of `join`: validation, the game with that slug, and no player of that game with the
      name yet. */
  function JoinTarget(t: Tables, name: string, slug: string): (r: Result<Game>)
    ensures (|name| < 3 || |slug| != 6) ==> r == Err(ValidationError(Messages(JoinRules(name, slug))))
    ensures |name| >= 3 && |slug| == 6 && FindGameBySlug(t, slug).Err? ==> r == Err(NotFound("Record not found"))
    ensures r.Ok? <==>
      && |name| >= 3 && |slug| == 6
      && FindGameBySlug(t, slug).Ok?
      && forall i :: 0 <= i < |t.users| ==> !(t.users[i].gameId == FindGameBySlug(t, slug).value.id && t.users[i].userName == name)
    ensures r.Ok? ==> r.value == FindGameBySlug(t, slug).value
    ensures |name| >= 3 && |slug| == 6 && FindGameBySlug(t, slug).Ok? && !r.Ok? ==>
      r == Err(UnprocessableEntity("Username is taken"))
  {
    var _ :- Validate(JoinRules(name, slug));
    var game :- FindGameBySlug(t, slug);
    if UserByGameAndName(t, game.id, name).Ok? then Err(UnprocessableEntity("Username is taken"))
    else Ok(game)
  }

  /** The row `User::create` inserts for a joining player. */
  function Joined(id: int, name: string, game: Game): User {
    User(id, name, game.id, None, 0)
  }

  /** `join`. On a guard failure nothing changes and nothing is pushed. Otherwise the player is
      inserted; if their token cannot be signed the error is returned with the row left in place,
      and otherwise every user row gets the token, the first row is returned, and the game's roster
      is pushed on `/players`. */
  method Join(store: Store, server: Server, jwt: Jwt, now: int, name: string, slug: string, io: Io) returns (r: Result<User>)
    requires store.Valid()
    modifies store, server
    ensures store.Valid()
    ensures server.sessions == old(server.sessions) && server.gameToSessions == old(server.gameToSessions)
    ensures var target := JoinTarget(old(store.Tables()), name, slug);
      target.Err? ==>
        && r == Err(target.error)
        && store.Tables() == old(store.Tables()) && store.serials == old(store.serials)
        && server.outbox == old(server.outbox)
    ensures var target := JoinTarget(old(store.Tables()), name, slug);
      target.Ok? ==>
        var inserted := Joined(old(store.serials).user, name, target.value);
        var token := CreateJwt(jwt, NewClaim(inserted.id, name, target.value.id, Player, now));
        && store.serials == old(store.serials).(user := old(store.serials).user + 1)
        && (token.Err? ==>
              && r == Err(token.error)
              && store.Tables() == old(store.Tables()).(users := old(store.users) + [inserted])
              && server.outbox == old(server.outbox))
        && (token.Ok? ==>
              && store.Tables() == old(store.Tables()).(users := WithSessionEverywhere(old(store.users) + [inserted], token.value))
              && r == Ok(store.users[0])
              && server.outbox == old(server.outbox)
                   + Published(server.gameToSessions, server.sessions, PlayersNote(store.Tables(), target.value.id, io), io))
  {
    var joined := JoinGame(store, jwt, now, name, slug);
    if joined.Err? {
      return Err(joined.error);
    }
    var (user, gameId) := joined.value;
    Publish(server, PlayersNote(store.Tables(), gameId, io), io);
    r := Ok(user);
  }

  /** The database part of `join`: the guards and the insert, returning the new row with the game id. */
  method JoinGame(store: Store, jwt: Jwt, now: int, name: string, slug: string) returns (r: Result<(User, int)>)
    requires store.Valid()
    modifies store
    ensures store.Valid()
    ensures var target := JoinTarget(old(store.Tables()), name, slug);
      target.Err? ==>
        r == Err(target.error) && store.Tables() == old(store.Tables()) && store.serials == old(store.serials)
    ensures var target := JoinTarget(old(store.Tables()), name, slug);
      target.Ok? ==>
        var inserted := Joined(old(store.serials).user, name, target.value);
        var token := CreateJwt(jwt, NewClaim(inserted.id, name, target.value.id, Player, now));
        && store.serials == old(store.serials).(user := old(store.serials).user + 1)
        && (token.Err? ==>
              r == Err(token.error) && store.Tables() == old(store.Tables()).(users := old(store.users) + [inserted]))
        && (token.Ok? ==>
              && store.Tables() == old(store.Tables()).(users := WithSessionEverywhere(old(store.users) + [inserted], token.value))
              && r == Ok((store.users[0], target.value.id)))
  {
    var target := JoinTarget(store.Tables(), name, slug);
    if target.Err? {
      return Err(target.error);
    }
    var game := target.value;
    assert HasGame(store.Tables(), game.id);
    var created := store.CreateUser(name, game.id, jwt, now);
    if created.Err? {
      return Err(created.error);
    }
    r := Ok((created.value, game.id));
  }

  /** Once a name has joined a game, joining that game again with the same name is refused, whether
      or not the first join could sign its token. */
  lemma SecondJoinIsRefused(t: Tables, name: string, slug: string, id: int, token: string)
    requires JoinTarget(t, name, slug).Ok?
    ensures var inserted := Joined(id, name, JoinTarget(t, name, slug).value);
      && JoinTarget(t.(users := t.users + [inserted]), name, slug) == Err(UnprocessableEntity("Username is taken"))
      && JoinTarget(t.(users := WithSessionEverywhere(t.users + [inserted], token)), name, slug) == Err(UnprocessableEntity("Username is taken"))
  {
    var game := JoinTarget(t, name, slug).value;
    var inserted := Joined(id, name, game);
    var t1 := t.(users := t.users + [inserted]);
    var t2 := t.(users := WithSessionEverywhere(t.users + [inserted], token));
    assert FindGameBySlug(t1, slug) == FindGameBySlug(t, slug);
    assert FindGameBySlug(t2, slug) == FindGameBySlug(t, slug);
    assert t1.users[|t.users|] == inserted;
    assert t2.users[|t.users|].gameId == game.id && t2.users[|t.users|].userName == name;
  }

  /** The roster pushed after a join lists the new player with a zero score. */
  lemma JoinedPlayerIsInRoster(t: Tables, name: string, slug: string, id: int, token: string)
    requires JoinTarget(t, name, slug).Ok?
    ensures var game := JoinTarget(t, name, slug).value;
      var after := t.(users := WithSessionEverywhere(t.users + [Joined(id, name, game)], token));
      UserDetails(id, name, game.id, 0) in UsersOfGame(after, game.id)
  {
    var game := JoinTarget(t, name, slug).value;
    var after := t.(users := WithSessionEverywhere(t.users + [Joined(id, name, game)], token));
    var u := after.users[|t.users|];
    assert u in after.users && u.gameId == game.id;
    assert Details(u) == UserDetails(id, name, game.id, 0);
  }

  // ---------------------------------------------------------------- create

  /** The links `create_db_records` inserts: one per listed question id, in list order, with
      consecutive serial ids from `firstId`. */
  function Links(gameId: int, questionIds: seq<int>, firstId: int): (ls: seq<GameQuestion>)
    ensures |ls| == |questionIds|
    ensures forall i :: 0 <= i < |ls| ==> ls[i] == GameQuestion(firstId + i, gameId, questionIds[i])
  {
    seq(|questionIds|, i requires 0 <= i < |questionIds| => GameQuestion(firstId + i, gameId, questionIds[i]))
  }

  /** What `create_db_records` answers: the new game with its slug and creator token, unless the token
      cannot be signed or a listed question does not exist. */
  function CreateOutcome(t: Tables, s: Serials, jwt: Jwt, now: int, draws: string, questionIds: seq<int>): (r: Result<Game>)
    requires s.game >= 1 && |draws| >= SlugLength && IsAlphanumericString(draws)
    ensures r.Ok? <==>
      && CreateJwt(jwt, NewClaim(s.game, CreateSlugFromId(s.game, draws), s.game, Owner, now)).Ok?
      && forall i :: 0 <= i < |questionIds| ==> HasQuestion(t, questionIds[i])
    ensures r.Ok? ==> r.value.id == s.game && r.value.slug == Some(CreateSlugFromId(s.game, draws))
  {
    var slug := CreateSlugFromId(s.game, draws);
    var token :- CreateJwt(jwt, NewClaim(s.game, slug, s.game, Owner, now));
    if forall i :: 0 <= i < |questionIds| ==> HasQuestion(t, questionIds[i]) then Ok(Game(s.game, Some(slug), Some(token)))
    else Err(FromDbError(ForeignKeyFailure))
  }

  /** `create_db_records`: inside a transaction, `Game::create` and then one `GameQuestion::create`
      per listed id; the first failure rolls the transaction back, so either the game and all its
      links are added or the tables are as before. The serials keep what the attempt consumed. */
  method CreateDbRecords(store: Store, jwt: Jwt, now: int, draws: string, questionIds: seq<int>) returns (r: Result<Game>)
    requires store.Valid()
    requires |draws| >= SlugLength && IsAlphanumericString(draws)
    modifies store
    ensures store.Valid()
    ensures SerialsAtLeast(store.serials, old(store.serials))
    ensures r == CreateOutcome(old(store.Tables()), old(store.serials), jwt, now, draws, questionIds)
    ensures r.Err? ==> store.Tables() == old(store.Tables())
    ensures r.Ok? ==>
      store.Tables() == old(store.Tables()).(
        games := old(store.games) + [r.value],
        gameQuestions := old(store.gameQuestions) + Links(r.value.id, questionIds, old(store.serials).gameQuestion))
  {
    var saved := store.Tables();
    ghost var s0 := store.serials;
    var game := store.CreateGame(jwt, now, draws);
    if game.Err? {
      IdsBelowLater(saved, s0, store.serials);
      store.Rollback(saved);
      return Err(game.error);
    }
    assert store.games[|saved.games|] == game.value;
    var linked := LinkQuestions(store, game.value.id, questionIds);
    if linked.Err? {
      IdsBelowLater(saved, s0, store.serials);
      store.Rollback(saved);
      return Err(linked.error);
    }
    r := Ok(game.value);
  }

  /** The loop of `create_db_records`: one link per id until the first one whose question is missing. */
  method LinkQuestions(store: Store, gameId: int, questionIds: seq<int>) returns (r: Result<()>)
    requires store.Valid() && HasGame(store.Tables(), gameId)
    modifies store
    ensures store.Valid()
    ensures SerialsAtLeast(store.serials, old(store.serials)) && store.serials.game == old(store.serials).game
    ensures r.Ok? <==> forall i :: 0 <= i < |questionIds| ==> HasQuestion(old(store.Tables()), questionIds[i])
    ensures r.Err? ==> r.error == FromDbError(ForeignKeyFailure)
    ensures r.Ok? ==>
      store.Tables() == old(store.Tables()).(gameQuestions := old(store.gameQuestions) + Links(gameId, questionIds, old(store.serials).gameQuestion))
  {
    var i := 0;
    while i < |questionIds|
      invariant 0 <= i <= |questionIds|
      invariant store.Valid()
      invariant store.serials == old(store.serials).(gameQuestion := old(store.serials).gameQuestion + i)
      invariant store.Tables() == old(store.Tables()).(gameQuestions := old(store.gameQuestions) + Links(gameId, questionIds[..i], old(store.serials).gameQuestion))
      invariant forall k :: 0 <= k < i ==> HasQuestion(old(store.Tables()), questionIds[k])
    {
      var linked := LinkOne(store, gameId, questionIds, i);
      if linked.Err? {
        return Err(linked.error);
      }
      i := i + 1;
    }
    assert questionIds[..i] == questionIds;
    r := Ok(());
  }

  /** One `GameQuestion::create` of the loop, with the link appended as the `i`-th of the list. */
  method LinkOne(store: Store, gameId: int, questionIds: seq<int>, i: nat) returns (r: Result<()>)
    requires i < |questionIds|
    requires store.Valid() && HasGame(store.Tables(), gameId)
    modifies store
    ensures store.Valid()
    ensures store.serials == old(store.serials).(gameQuestion := old(store.serials).gameQuestion + 1)
    ensures r.Ok? <==> HasQuestion(old(store.Tables()), questionIds[i])
    ensures r.Err? ==> r.error == FromDbError(ForeignKeyFailure) && store.Tables() == old(store.Tables())
    ensures r.Ok? ==> forall ts: seq<GameQuestion>, first: int ::
      old(store.gameQuestions) == ts + Links(gameId, questionIds[..i], first) && old(store.serials).gameQuestion == first + i ==>
        store.Tables() == old(store.Tables()).(gameQuestions := ts + Links(gameId, questionIds[..i + 1], first))
  {
    var link := store.CreateGameQuestion(gameId, questionIds[i]);
    if link.Err? {
      return Err(link.error);
    }
    forall ts: seq<GameQuestion>, first: int |
      old(store.gameQuestions) == ts + Links(gameId, questionIds[..i], first) && old(store.serials).gameQuestion == first + i
      ensures store.gameQuestions == ts + Links(gameId, questionIds[..i + 1], first)
    {
      assert Links(gameId, questionIds[..i + 1], first) == Links(gameId, questionIds[..i], first) + [link.value];
    }
    r := Ok(());
  }

  /** The creator of a newly created game can create its rounds: the token stored as the game's
      creator decodes to an Owner claim for that game, so the round guard lets it through. */
  lemma CreatorPassesRoundGuard(t: Tables, s: Serials, jwt: Jwt, now: int, draws: string, questionIds: seq<int>,
                                playerOne: string, playerTwo: string)
    requires RoundTrips(jwt)
    requires s.game >= 1 && |draws| >= SlugLength && IsAlphanumericString(draws)
    requires CreateOutcome(t, s, jwt, now, draws, questionIds).Ok?
    requires forall i :: 0 <= i < |t.games| ==> t.games[i].id != s.game
    requires playerOne != [] && playerTwo != []
    ensures var game := CreateOutcome(t, s, jwt, now, draws, questionIds).value;
      var after := t.(games := t.games + [game]);
      RoundRoutes.CreateRoundGuard(after, jwt, game.creator, playerOne, playerTwo).Ok?
  {
    var game := CreateOutcome(t, s, jwt, now, draws, questionIds).value;
    var after := t.(games := t.games + [game]);
    var claim := NewClaim(s.game, CreateSlugFromId(s.game, draws), s.game, Owner, now);
    DecodeCreated(jwt, claim);
    assert after.games[|t.games|] == game;
    assert FindGameById(after, s.game) == Ok(game);
  }

  /** A created game can be joined with its slug: for every 32-bit id the slug has the six characters
      the join request demands, and a game with that slug exists. */
  lemma CreatedGameSlugPassesJoinValidation(t: Tables, s: Serials, jwt: Jwt, now: int, draws: string, questionIds: seq<int>,
                                            name: string)
    requires 1 <= s.game <= 0x7fff_ffff && |draws| >= SlugLength && IsAlphanumericString(draws)
    requires CreateOutcome(t, s, jwt, now, draws, questionIds).Ok?
    requires |name| >= 3
    ensures var game := CreateOutcome(t, s, jwt, now, draws, questionIds).value;
      var after := t.(games := t.games + [game]);
      JoinTarget(after, name, game.slug.value).Err? ==> JoinTarget(after, name, game.slug.value) == Err(UnprocessableEntity("Username is taken"))
  {
    var game := CreateOutcome(t, s, jwt, now, draws, questionIds).value;
    var after := t.(games := t.games + [game]);
    SerialSlugsHaveSixCharacters(s.game, draws);
    assert after.games[|t.games|] == game;
  }
}
