/** The database as the models see it: one table per field, each a sequence of rows in insertion
    order, and one serial counter per table with an id column filled by the database. A serial value
    is consumed by every insert, including one that then fails and one inside a transaction that is
    rolled back, as Postgres sequences are. */
module Db {
  import opened Errors
  import opened Models
  import opened Auth
  import opened Slug

  /** The next value of each serial column. */
  datatype Serials = Serials(game: int, round: int, user: int, pick: int, gameQuestion: int)

  /** How a foreign-key failure reaches a model: through `From<DBError>`, as a generic 500. */
  const ForeignKeyFailure: DbError :=
    DatabaseError(ForeignKeyViolation, "insert or update violates foreign key constraint", None)

  /** Every id already handed out lies below its serial's next value. */
  predicate IdsBelow(t: Tables, s: Serials) {
    && (forall i :: 0 <= i < |t.games| ==> t.games[i].id < s.game)
    && (forall i :: 0 <= i < |t.rounds| ==> t.rounds[i].id < s.round)
    && (forall i :: 0 <= i < |t.users| ==> t.users[i].id < s.user)
    && (forall i :: 0 <= i < |t.picks| ==> t.picks[i].id < s.pick)
    && (forall i :: 0 <= i < |t.gameQuestions| ==> t.gameQuestions[i].id < s.gameQuestion)
  }

  predicate SerialsAtLeast(later: Serials, earlier: Serials) {
    later.game >= earlier.game && later.round >= earlier.round && later.user >= earlier.user
    && later.pick >= earlier.pick && later.gameQuestion >= earlier.gameQuestion
  }

  lemma IdsBelowLater(t: Tables, earlier: Serials, later: Serials)
    requires IdsBelow(t, earlier) && SerialsAtLeast(later, earlier)
    ensures IdsBelow(t, later)
  {
  }

  class Store {
    var games: seq<Game>
    var rounds: seq<Round>
    var users: seq<User>
    var picks: seq<UserQuestion>
    var questions: seq<Question>
    var gameQuestions: seq<GameQuestion>
    var serials: Serials

    function Tables(): Tables
      reads this
    {
      Models.Tables(games, rounds, users, picks, questions, gameQuestions)
    }

    predicate Valid()
      reads this
    {
      serials.game >= 1 && ValidTables(Tables()) && IdsBelow(Tables(), serials)
    }

    /** A database holding only the seeded question catalogue. */
    constructor (catalogue: seq<Question>)
      requires forall i, j :: 0 <= i < j < |catalogue| ==> catalogue[i].id < catalogue[j].id
      ensures Valid()
      ensures Tables() == Models.Tables([], [], [], [], catalogue, [])
      ensures serials == Serials(1, 1, 1, 1, 1)
    {
      games, rounds, users, picks, gameQuestions := [], [], [], [], [];
      questions := catalogue;
      serials := Serials(1, 1, 1, 1, 1);
    }

    /** `Round::create`: a new open round, or a foreign-key failure when the game does not exist. */
    method CreateRound(gameId: int, playerOne: string, playerTwo: string) returns (r: Result<Round>)
      requires Valid()
      modifies this
      ensures Valid()
      ensures serials == old(serials).(round := old(serials).round + 1)
      ensures HasGame(old(Tables()), gameId) ==>
        && r == Ok(Round(old(serials).round, playerOne, playerTwo, gameId, false, false))
        && Tables() == old(Tables()).(rounds := old(rounds) + [r.value])
      ensures !HasGame(old(Tables()), gameId) ==>
        r == Err(FromDbError(ForeignKeyFailure)) && Tables() == old(Tables())
    {
      var id := serials.round;
      serials := serials.(round := id + 1);
      if !HasGame(Tables(), gameId) {
        return Err(FromDbError(ForeignKeyFailure));
      }
      var round := Round(id, playerOne, playerTwo, gameId, false, false);
      ghost var before := Tables();
      rounds := rounds + [round];
      RoundAppended(before, round);
      r := Ok(round);
    }

    /** `Round::lock`. */
    method Lock(roundId: int)
      requires Valid()
      modifies this
      ensures Valid()
      ensures serials == old(serials)
      ensures Tables() == old(Tables()).(rounds := WithLocked(old(rounds), roundId))
    {
      ghost var before := Tables();
      rounds := WithLocked(rounds, roundId);
      RoundsRewritten(before);
    }

    /** `Round::finish`. */
    method Finish(roundId: int)
      requires Valid()
      modifies this
      ensures Valid()
      ensures serials == old(serials)
      ensures Tables() == old(Tables()).(rounds := WithFinished(old(rounds), roundId))
    {
      ghost var before := Tables();
      rounds := WithFinished(rounds, roundId);
      RoundsRewritten(before);
    }

    /** `User::add_score`: read the user's score, then write it back increased by `amount`. */
    method AddScore(userId: int, amount: int) returns (r: Result<User>)
      requires Valid()
      modifies this
      ensures Valid()
      ensures serials == old(serials)
      ensures !HasUser(old(Tables()), userId) ==> r == Err(NotFound("Record not found")) && Tables() == old(Tables())
      ensures HasUser(old(Tables()), userId) ==>
        var u := old(users)[FirstUserIndex(old(users), userId)];
        && r == Ok(u.(score := u.score + amount))
        && Tables() == old(Tables()).(users := WithScore(old(users), userId, u.score + amount))
    {
      if !HasUser(Tables(), userId) {
        return Err(NoRecord);
      }
      var i := FirstUserIndex(users, userId);
      var u := users[i];
      var updated := WithScore(users, userId, u.score + amount);
      assert updated[i] == u.(score := u.score + amount);
      ghost var before := Tables();
      users := updated;
      UsersRewritten(before);
      r := Ok(updated[i]);
      assert u == old(users)[FirstUserIndex(old(users), userId)];
    }

    /** `User::create` as written: insert the user, sign a Player token for it, then set that token as
        the session id of every user row (the update has no filter) and return the first updated row. */
    method CreateUser(userName: string, gameId: int, jwt: Jwt, now: int) returns (r: Result<User>)
      requires Valid()
      modifies this
      ensures Valid()
      ensures serials == old(serials).(user := old(serials).user + 1)
      ensures !HasGame(old(Tables()), gameId) ==>
        r == Err(FromDbError(ForeignKeyFailure)) && Tables() == old(Tables())
      ensures HasGame(old(Tables()), gameId) ==>
        var inserted := User(old(serials).user, userName, gameId, None, 0);
        var token := CreateJwt(jwt, NewClaim(inserted.id, userName, gameId, Player, now));
        && (token.Err? ==> r == Err(token.error) && Tables() == old(Tables()).(users := old(users) + [inserted]))
        && (token.Ok? ==>
              && Tables() == old(Tables()).(users := WithSessionEverywhere(old(users) + [inserted], token.value))
              && r == Ok(users[0]))
    {
      var id := serials.user;
      serials := serials.(user := id + 1);
      if !HasGame(Tables(), gameId) {
        return Err(FromDbError(ForeignKeyFailure));
      }
      var inserted := User(id, userName, gameId, None, 0);
      ghost var before := Tables();
      users := users + [inserted];
      UserAppended(before, inserted);
      var token := CreateJwt(jwt, NewClaim(id, userName, gameId, Player, now));
      if token.Err? {
        return Err(token.error);
      }
      before := Tables();
      users := WithSessionEverywhere(users, token.value);
      UsersRewritten(before);
      r := Ok(users[0]);
    }

    /** `UserQuestion::create`: one new pick, or a foreign-key failure when the user, the question or
        the round does not exist. */
    method CreatePick(userId: int, questionId: int, roundId: int, answer: string) returns (r: Result<UserQuestion>)
      requires Valid()
      modifies this
      ensures Valid()
      ensures serials == old(serials).(pick := old(serials).pick + 1)
      ensures var t := old(Tables());
        HasUser(t, userId) && HasQuestion(t, questionId) && HasRound(t, roundId) ==>
        && r == Ok(UserQuestion(old(serials).pick, userId, questionId, roundId, answer))
        && Tables() == t.(picks := t.picks + [r.value])
      ensures var t := old(Tables());
        !(HasUser(t, userId) && HasQuestion(t, questionId) && HasRound(t, roundId)) ==>
        r == Err(FromDbError(ForeignKeyFailure)) && Tables() == t
    {
      var id := serials.pick;
      serials := serials.(pick := id + 1);
      if !(HasUser(Tables(), userId) && HasQuestion(Tables(), questionId) && HasRound(Tables(), roundId)) {
        return Err(FromDbError(ForeignKeyFailure));
      }
      var pick := UserQuestion(id, userId, questionId, roundId, answer);
      ghost var before := Tables();
      picks := picks + [pick];
      PickAppended(before, pick);
      r := Ok(pick);
    }

    /** `Game::create`: insert an empty game, derive its slug from its id, sign an Owner token whose
        subject and game are that id, and store both on the row. `draws` stands for the random
        characters the slug padding would use. */
    method CreateGame(jwt: Jwt, now: int, draws: string) returns (r: Result<Game>)
      requires Valid()
      requires |draws| >= SlugLength && IsAlphanumericString(draws)
      modifies this
      ensures Valid()
      ensures serials == old(serials).(game := old(serials).game + 1)
      ensures var id := old(serials).game;
        var slug := CreateSlugFromId(id, draws);
        var token := CreateJwt(jwt, NewClaim(id, slug, id, Owner, now));
        && (token.Err? ==>
              r == Err(token.error) && Tables() == old(Tables()).(games := old(games) + [Game(id, None, None)]))
        && (token.Ok? ==>
              && r == Ok(Game(id, Some(slug), Some(token.value)))
              && Tables() == old(Tables()).(games := old(games) + [r.value]))
    {
      var id := serials.game;
      serials := serials.(game := id + 1);
      ghost var before := Tables();
      games := games + [Game(id, None, None)];
      GameAppended(before, Game(id, None, None));
      var slug := CreateSlugFromId(id, draws);
      var token := CreateJwt(jwt, NewClaim(id, slug, id, Owner, now));
      if token.Err? {
        return Err(token.error);
      }
      games := WithSlugAndCreator(games, id, slug, token.value);
      assert games == before.games + [Game(id, Some(slug), Some(token.value))] by {
        assert forall i :: 0 <= i < |before.games| ==> before.games[i].id < id;
      }
      GameAppended(before, Game(id, Some(slug), Some(token.value)));
      r := Ok(Game(id, Some(slug), Some(token.value)));
    }

    /** `GameQuestion::create`: one link from a game to a question, or a foreign-key failure. */
    method CreateGameQuestion(gameId: int, questionId: int) returns (r: Result<GameQuestion>)
      requires Valid()
      modifies this
      ensures Valid()
      ensures serials == old(serials).(gameQuestion := old(serials).gameQuestion + 1)
      ensures var t := old(Tables());
        HasGame(t, gameId) && HasQuestion(t, questionId) ==>
        && r == Ok(GameQuestion(old(serials).gameQuestion, gameId, questionId))
        && Tables() == t.(gameQuestions := t.gameQuestions + [r.value])
      ensures var t := old(Tables());
        !(HasGame(t, gameId) && HasQuestion(t, questionId)) ==> r == Err(FromDbError(ForeignKeyFailure)) && Tables() == t
    {
      var id := serials.gameQuestion;
      serials := serials.(gameQuestion := id + 1);
      if !(HasGame(Tables(), gameId) && HasQuestion(Tables(), questionId)) {
        return Err(FromDbError(ForeignKeyFailure));
      }
      var link := GameQuestion(id, gameId, questionId);
      ghost var before := Tables();
      gameQuestions := gameQuestions + [link];
      GameQuestionAppended(before, link);
      r := Ok(link);
    }

    /** Rolling a transaction back: the tables return to a snapshot, the serials keep what they consumed. */
    method Rollback(saved: Models.Tables)
      requires Valid() && ValidTables(saved) && IdsBelow(saved, serials)
      modifies this
      ensures Valid()
      ensures serials == old(serials)
      ensures Tables() == saved
    {
      games, rounds, users, picks, questions, gameQuestions :=
        saved.games, saved.rounds, saved.users, saved.picks, saved.questions, saved.gameQuestions;
    }

    // -------------------------------------------------------------- invariant preservation

    /** Appending a round with a fresh id whose game exists keeps the store valid. */
    lemma RoundAppended(before: Models.Tables, round: Round)
      requires ValidTables(before) && serials.game >= 1
      requires IdsBelow(before, serials.(round := round.id)) && round.id < serials.round
      requires HasGame(before, round.gameId)
      requires Tables() == before.(rounds := before.rounds + [round])
      ensures Valid()
    {
      assert forall i :: 0 <= i < |before.rounds| ==> rounds[i] == before.rounds[i];
      assert rounds[|before.rounds|] == round;
      forall id | RoundIdIn(before.rounds, id) ensures RoundIdIn(rounds, id) {
        var i :| 0 <= i < |before.rounds| && before.rounds[i].id == id;
        assert rounds[i].id == id;
      }
    }

    /** Rewriting flags of rounds in place keeps ids and game references, hence validity. */
    lemma RoundsRewritten(before: Models.Tables)
      requires ValidTables(before) && IdsBelow(before, serials) && serials.game >= 1
      requires Tables() == before.(rounds := rounds) && |rounds| == |before.rounds|
      requires forall i :: 0 <= i < |rounds| ==> rounds[i].id == before.rounds[i].id && rounds[i].gameId == before.rounds[i].gameId
      ensures Valid()
    {
      forall id | RoundIdIn(before.rounds, id) ensures RoundIdIn(rounds, id) {
        var i :| 0 <= i < |before.rounds| && before.rounds[i].id == id;
        assert rounds[i].id == id;
      }
    }

    /** Appending a user with a fresh id whose game exists keeps the store valid. */
    lemma UserAppended(before: Models.Tables, user: User)
      requires ValidTables(before) && serials.game >= 1
      requires IdsBelow(before, serials.(user := user.id)) && user.id < serials.user
      requires HasGame(before, user.gameId)
      requires Tables() == before.(users := before.users + [user])
      ensures Valid()
    {
      assert forall i :: 0 <= i < |before.users| ==> users[i] == before.users[i];
      assert users[|before.users|] == user;
      forall id | UserIdIn(before.users, id) ensures UserIdIn(users, id) {
        var i :| 0 <= i < |before.users| && before.users[i].id == id;
        assert users[i].id == id;
      }
    }

    /** Rewriting other columns of users in place keeps ids and game references, hence validity. */
    lemma UsersRewritten(before: Models.Tables)
      requires ValidTables(before) && IdsBelow(before, serials) && serials.game >= 1
      requires Tables() == before.(users := users) && |users| == |before.users|
      requires forall i :: 0 <= i < |users| ==> users[i].id == before.users[i].id && users[i].gameId == before.users[i].gameId
      ensures Valid()
    {
      forall id | UserIdIn(before.users, id) ensures UserIdIn(users, id) {
        var i :| 0 <= i < |before.users| && before.users[i].id == id;
        assert users[i].id == id;
      }
    }

    /** Appending a game with a fresh id keeps the store valid. */
    lemma GameAppended(before: Models.Tables, game: Game)
      requires ValidTables(before) && serials.game >= 1
      requires IdsBelow(before, serials.(game := game.id)) && game.id < serials.game
      requires Tables() == before.(games := before.games + [game])
      ensures Valid()
    {
      assert forall i :: 0 <= i < |before.games| ==> games[i] == before.games[i];
      assert games[|before.games|] == game;
      forall id | GameIdIn(before.games, id) ensures GameIdIn(games, id) {
        var i :| 0 <= i < |before.games| && before.games[i].id == id;
        assert games[i].id == id;
      }
    }

    /** Appending a pick with a fresh id whose user, question and round exist keeps the store valid. */
    lemma PickAppended(before: Models.Tables, pick: UserQuestion)
      requires ValidTables(before) && serials.game >= 1
      requires IdsBelow(before, serials.(pick := pick.id)) && pick.id < serials.pick
      requires HasUser(before, pick.userId) && HasQuestion(before, pick.questionId) && HasRound(before, pick.roundId)
      requires Tables() == before.(picks := before.picks + [pick])
      ensures Valid()
    {
      assert forall i :: 0 <= i < |before.picks| ==> picks[i] == before.picks[i];
      assert picks[|before.picks|] == pick;
    }

    /** Appending a link with a fresh id whose game and question exist keeps the store valid. */
    lemma GameQuestionAppended(before: Models.Tables, link: GameQuestion)
      requires ValidTables(before) && serials.game >= 1
      requires IdsBelow(before, serials.(gameQuestion := link.id)) && link.id < serials.gameQuestion
      requires HasGame(before, link.gameId) && HasQuestion(before, link.questionId)
      requires Tables() == before.(gameQuestions := before.gameQuestions + [link])
      ensures Valid()
    {
      assert forall i :: 0 <= i < |before.gameQuestions| ==> gameQuestions[i] == before.gameQuestions[i];
      assert gameQuestions[|before.gameQuestions|] == link;
    }
  }

  // ---------------------------------------------------------------- row updates

  /** After `WithScore`, the first row with the id is the old first row with its new score. */
  lemma WithScoreFirstMatch(t: Models.Tables, userId: int, value: int)
    requires HasUser(t, userId)
    ensures UserById(t.(users := WithScore(t.users, userId, value)), userId) == Ok(UserById(t, userId).value.(score := value))
  {
    var us := WithScore(t.users, userId, value);
    var i := FirstUserIndex(t.users, userId);
    assert us[i].id == userId;
    var j := FirstUserIndex(us, userId);
    assert i == j;
  }
}
