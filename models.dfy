/** The records of the `db` crate, a snapshot of its tables, and the queries of the models as pure
    functions over a snapshot. Row order is table order: `.first()` takes the first matching row, and
    the most recently created row of a query ordered by `created_at` descending is the last one. */
module Models {
  import opened Errors

  datatype Game = Game(id: int, slug: Option<string>, creator: Option<string>)

  datatype Round = Round(id: int, playerOne: string, playerTwo: string, gameId: int, locked: bool, finished: bool)

  datatype User = User(id: int, userName: string, gameId: int, sessionId: Option<string>, score: int)

  /** The projection of a user that rosters carry: no session token. */
  datatype UserDetails = UserDetails(id: int, userName: string, gameId: int, score: int)

  /** A pick: the answer `userId` gave to `questionId` in `roundId`. */
  datatype UserQuestion = UserQuestion(id: int, userId: int, questionId: int, roundId: int, answer: string)

  datatype Question = Question(id: int, body: string)

  datatype GameQuestion = GameQuestion(id: int, gameId: int, questionId: int)

  datatype QuestionDetails = QuestionDetails(id: int, body: string)

  /** The six tables of the schema. */
  datatype Tables = Tables(
    games: seq<Game>,
    rounds: seq<Round>,
    users: seq<User>,
    picks: seq<UserQuestion>,
    questions: seq<Question>,
    gameQuestions: seq<GameQuestion>)

  /** The error a query reports when no row matches. */
  const NoRecord: Error := FromDbError(DbNotFound)

  // ---------------------------------------------------------------- selection

  /** The position of the first element satisfying `p`, if any. */
  function FirstWhere<T>(s: seq<T>, p: T -> bool): (r: Option<nat>)
    ensures r.Some? ==> r.value < |s| && p(s[r.value]) && forall j :: 0 <= j < r.value ==> !p(s[j])
    ensures r.None? <==> forall j :: 0 <= j < |s| ==> !p(s[j])
    decreases |s|
  {
    if s == [] then None
    else if p(s[0]) then Some(0)
    else match FirstWhere(s[1..], p)
      case None => None
      case Some(k) => Some(k + 1)
  }

  /** The position of the last element satisfying `p`, if any. */
  function LastWhere<T>(s: seq<T>, p: T -> bool): (r: Option<nat>)
    ensures r.Some? ==> r.value < |s| && p(s[r.value]) && forall j :: r.value < j < |s| ==> !p(s[j])
    ensures r.None? <==> forall j :: 0 <= j < |s| ==> !p(s[j])
    decreases |s|
  {
    if s == [] then None
    else if p(s[|s| - 1]) then Some(|s| - 1)
    else LastWhere(s[..|s| - 1], p)
  }

  /** The elements satisfying `p`, in their order. */
  function Filter<T>(s: seq<T>, p: T -> bool): (r: seq<T>)
    ensures |r| <= |s|
    ensures forall i :: 0 <= i < |r| ==> r[i] in s && p(r[i])
    ensures forall i :: 0 <= i < |s| && p(s[i]) ==> s[i] in r
    decreases |s|
  {
    if s == [] then []
    else if p(s[0]) then [s[0]] + Filter(s[1..], p)
    else Filter(s[1..], p)
  }

  /** First element satisfying `p`, or the not-found error. */
  function First<T>(s: seq<T>, p: T -> bool): (r: Result<T>)
    ensures r.Ok? <==> exists i :: 0 <= i < |s| && p(s[i])
    ensures r.Ok? ==> exists i :: 0 <= i < |s| && s[i] == r.value && p(s[i]) && forall j :: 0 <= j < i ==> !p(s[j])
    ensures r.Err? ==> r.error == NotFound("Record not found")
  {
    match FirstWhere(s, p)
    case Some(i) => Ok(s[i])
    case None => Err(NoRecord)
  }

  // ---------------------------------------------------------------- games

  /** `Game::find_by_id`. */
  function FindGameById(t: Tables, id: int): (r: Result<Game>)
    ensures r.Ok? <==> exists i :: 0 <= i < |t.games| && t.games[i].id == id
    ensures r.Ok? ==> r.value in t.games && r.value.id == id
    ensures r.Err? ==> r.error == NotFound("Record not found")
  {
    First(t.games, (g: Game) => g.id == id)
  }

  /** `Game::find_by_slug`: the first game with that slug. */
  function FindGameBySlug(t: Tables, slug: string): (r: Result<Game>)
    ensures r.Ok? <==> exists i :: 0 <= i < |t.games| && t.games[i].slug == Some(slug)
    ensures r.Ok? ==> r.value in t.games && r.value.slug == Some(slug)
    ensures r.Err? ==> r.error == NotFound("Record not found")
  {
    First(t.games, (g: Game) => g.slug == Some(slug))
  }

  // ---------------------------------------------------------------- rounds

  predicate IsActive(r: Round, gameId: int) {
    r.gameId == gameId && !r.locked
  }

  predicate IsUnfinished(r: Round, gameId: int) {
    r.gameId == gameId && r.locked && !r.finished
  }

  /** `Round::get_active_round_by_game_id`: the first unlocked round of the game. */
  function ActiveRound(t: Tables, gameId: int): (r: Result<Round>)
    ensures r.Ok? <==> exists i :: 0 <= i < |t.rounds| && IsActive(t.rounds[i], gameId)
    ensures r.Ok? ==> r.value in t.rounds && r.value.gameId == gameId && !r.value.locked
    ensures r.Err? ==> r.error == NotFound("Record not found")
  {
    First(t.rounds, (x: Round) => IsActive(x, gameId))
  }

  /** `Round::get_unfinished_round_by_game_id`: the first locked, unfinished round of the game. */
  function UnfinishedRound(t: Tables, gameId: int): (r: Result<Round>)
    ensures r.Ok? <==> exists i :: 0 <= i < |t.rounds| && IsUnfinished(t.rounds[i], gameId)
    ensures r.Ok? ==> r.value in t.rounds && r.value.gameId == gameId && r.value.locked && !r.value.finished
    ensures r.Err? ==> r.error == NotFound("Record not found")
  {
    First(t.rounds, (x: Round) => IsUnfinished(x, gameId))
  }

  /** `Round::get_latest_round_by_game_id`: the game's most recently created round. */
  function LatestRound(t: Tables, gameId: int): (r: Result<Round>)
    ensures r.Ok? <==> exists i :: 0 <= i < |t.rounds| && t.rounds[i].gameId == gameId
    ensures r.Ok? ==> exists i :: 0 <= i < |t.rounds| && t.rounds[i] == r.value && r.value.gameId == gameId
                        && forall j :: i < j < |t.rounds| ==> t.rounds[j].gameId != gameId
    ensures r.Err? ==> r.error == NotFound("Record not found")
  {
    match LastWhere(t.rounds, (x: Round) => x.gameId == gameId)
    case Some(i) => Ok(t.rounds[i])
    case None => Err(NoRecord)
  }

  /** `Round::belonging_to(game)`: the rounds of the game, in table order. */
  function RoundsOfGame(t: Tables, gameId: int): (rs: seq<Round>)
    ensures forall x :: x in rs <==> x in t.rounds && x.gameId == gameId
  {
    Filter(t.rounds, (x: Round) => x.gameId == gameId)
  }

  // ---------------------------------------------------------------- users

  function Details(u: User): UserDetails {
    UserDetails(u.id, u.userName, u.gameId, u.score)
  }

  function AllDetails(us: seq<User>): (ds: seq<UserDetails>)
    ensures |ds| == |us| && forall i :: 0 <= i < |us| ==> ds[i] == Details(us[i])
    decreases |us|
  {
    if us == [] then [] else [Details(us[0])] + AllDetails(us[1..])
  }

  /** `User::find_all_by_game_id`: the game's users, projected to their details. */
  function UsersOfGame(t: Tables, gameId: int): (ds: seq<UserDetails>)
    ensures forall d :: d in ds <==> exists u :: u in t.users && u.gameId == gameId && d == Details(u)
    ensures forall d :: d in ds ==> d.gameId == gameId
  {
    var us := Filter(t.users, (u: User) => u.gameId == gameId);
    var ds := AllDetails(us);
    assert forall d :: d in ds <==> exists u :: u in us && d == Details(u) by {
      forall d ensures d in ds <==> exists u :: u in us && d == Details(u) {
        if d in ds {
          var i :| 0 <= i < |ds| && ds[i] == d;
          assert us[i] in us;
        }
      }
    }
    ds
  }

  /** `User::find_by_game_id_and_name`. */
  function UserByGameAndName(t: Tables, gameId: int, name: string): (r: Result<User>)
    ensures r.Ok? <==> exists i :: 0 <= i < |t.users| && t.users[i].gameId == gameId && t.users[i].userName == name
    ensures r.Ok? ==> r.value in t.users && r.value.gameId == gameId && r.value.userName == name
    ensures r.Err? ==> r.error == NotFound("Record not found")
  {
    First(t.users, (u: User) => u.gameId == gameId && u.userName == name)
  }

  predicate HasUser(t: Tables, id: int) {
    UserIdIn(t.users, id)
  }

  predicate UserIdIn(rows: seq<User>, id: int) {
    exists i | 0 <= i < |rows| :: rows[i].id == id
  }

  /** The position of the first user row with that id. */
  function FirstUserIndex(users: seq<User>, id: int): (i: nat)
    requires exists k :: 0 <= k < |users| && users[k].id == id
    ensures i < |users| && users[i].id == id && forall j :: 0 <= j < i ==> users[j].id != id
  {
    FirstWhere(users, (u: User) => u.id == id).value
  }

  /** `users.filter(id = userId).get_result()`: the first row with that id. */
  function UserById(t: Tables, id: int): (r: Result<User>)
    ensures r.Ok? <==> HasUser(t, id)
    ensures r.Ok? ==> r.value == t.users[FirstUserIndex(t.users, id)]
    ensures r.Err? ==> r.error == NotFound("Record not found")
  {
    if HasUser(t, id) then Ok(t.users[FirstUserIndex(t.users, id)]) else Err(NoRecord)
  }

  // ---------------------------------------------------------------- picks

  /** `UserQuestion::find_by_round_and_user`. */
  function PicksOfRoundAndUser(t: Tables, roundId: int, userId: int): (ps: seq<UserQuestion>)
    ensures forall p :: p in ps <==> p in t.picks && p.roundId == roundId && p.userId == userId
  {
    Filter(t.picks, (p: UserQuestion) => p.roundId == roundId && p.userId == userId)
  }

  /** `UserQuestion::find_by_round`: the round's picks, in table order. */
  function PicksOfRound(t: Tables, roundId: int): (ps: seq<UserQuestion>)
    ensures forall p :: p in ps <==> p in t.picks && p.roundId == roundId
  {
    Filter(t.picks, (p: UserQuestion) => p.roundId == roundId)
  }

  // ---------------------------------------------------------------- questions

  /** The catalogue question a link points at, if the catalogue has it. */
  function QuestionOfLink(t: Tables, link: GameQuestion): (q: Option<QuestionDetails>)
    ensures q.Some? <==> HasQuestion(t, link.questionId)
    ensures q.Some? ==> q.value.id == link.questionId
    ensures q.Some? ==> exists k :: 0 <= k < |t.questions| && t.questions[k] == Question(q.value.id, q.value.body)
  {
    match FirstWhere(t.questions, (q: Question) => q.id == link.questionId)
    case Some(i) => Some(QuestionDetails(t.questions[i].id, t.questions[i].body))
    case None => None
  }

  function JoinQuestions(t: Tables, links: seq<GameQuestion>): (qs: seq<QuestionDetails>)
    ensures |qs| <= |links|
    ensures forall q :: q in qs ==> (exists l :: l in links && q.id == l.questionId) && HasQuestion(t, q.id)
    decreases |links|
  {
    if links == [] then []
    else
      var rest := JoinQuestions(t, links[1..]);
      match QuestionOfLink(t, links[0])
      case Some(q) => [q] + rest
      case None => rest
  }

  /** When every link resolves, the join keeps one question per link, in link order. */
  lemma {:induction false} JoinQuestionsFollowsLinks(t: Tables, links: seq<GameQuestion>)
    requires forall i :: 0 <= i < |links| ==> HasQuestion(t, links[i].questionId)
    ensures |JoinQuestions(t, links)| == |links|
    ensures forall i :: 0 <= i < |links| ==> Some(JoinQuestions(t, links)[i]) == QuestionOfLink(t, links[i])
    decreases |links|
  {
    if links != [] {
      JoinQuestionsFollowsLinks(t, links[1..]);
      var rest := JoinQuestions(t, links[1..]);
      assert QuestionOfLink(t, links[0]).Some?;
      assert JoinQuestions(t, links) == [QuestionOfLink(t, links[0]).value] + rest;
      forall i | 1 <= i < |links|
        ensures Some(JoinQuestions(t, links)[i]) == QuestionOfLink(t, links[i])
      {
        assert JoinQuestions(t, links)[i] == rest[i - 1];
        assert links[1..][i - 1] == links[i];
      }
    }
  }

  /** The game's rows of `game_questions`, in table order. */
  function LinksOfGame(t: Tables, gameId: int): (ls: seq<GameQuestion>)
    ensures forall l :: l in ls <==> l in t.gameQuestions && l.gameId == gameId
  {
    Filter(t.gameQuestions, (l: GameQuestion) => l.gameId == gameId)
  }

  /** `GameQuestion::get_questions_by_game_id`: the questions linked to the game, in link order. */
  function QuestionsOfGame(t: Tables, gameId: int): (qs: seq<QuestionDetails>)
    ensures forall q :: q in qs ==> exists l :: l in t.gameQuestions && l.gameId == gameId && q.id == l.questionId
    ensures forall q :: q in qs ==> HasQuestion(t, q.id)
  {
    JoinQuestions(t, LinksOfGame(t, gameId))
  }

  /** With the foreign key of `game_questions`, the game's question list has exactly one entry per
      link of the game, in link order, each the linked question of the catalogue. */
  lemma QuestionsOfGameFollowsLinks(t: Tables, gameId: int)
    requires ValidTables(t)
    ensures var links := LinksOfGame(t, gameId);
      var qs := QuestionsOfGame(t, gameId);
      && |qs| == |links|
      && forall i :: 0 <= i < |qs| ==>
           qs[i].id == links[i].questionId
           && exists k :: 0 <= k < |t.questions| && t.questions[k] == Question(qs[i].id, qs[i].body)
  {
    var links := LinksOfGame(t, gameId);
    forall i | 0 <= i < |links|
      ensures HasQuestion(t, links[i].questionId)
    {
      assert links[i] in t.gameQuestions;
      var j :| 0 <= j < |t.gameQuestions| && t.gameQuestions[j] == links[i];
    }
    JoinQuestionsFollowsLinks(t, links);
  }

  // ---------------------------------------------------------------- table invariants

  predicate HasGame(t: Tables, id: int) {
    GameIdIn(t.games, id)
  }

  predicate GameIdIn(rows: seq<Game>, id: int) {
    exists i | 0 <= i < |rows| :: rows[i].id == id
  }

  predicate HasRound(t: Tables, id: int) {
    RoundIdIn(t.rounds, id)
  }

  predicate RoundIdIn(rows: seq<Round>, id: int) {
    exists i | 0 <= i < |rows| :: rows[i].id == id
  }

  predicate HasQuestion(t: Tables, id: int) {
    QuestionIdIn(t.questions, id)
  }

  predicate QuestionIdIn(rows: seq<Question>, id: int) {
    exists i | 0 <= i < |rows| :: rows[i].id == id
  }

  /** Serial keys: every table's ids strictly increase in table order. */
  predicate KeysIncrease(t: Tables) {
    && (forall i, j :: 0 <= i < j < |t.games| ==> t.games[i].id < t.games[j].id)
    && (forall i, j :: 0 <= i < j < |t.rounds| ==> t.rounds[i].id < t.rounds[j].id)
    && (forall i, j :: 0 <= i < j < |t.users| ==> t.users[i].id < t.users[j].id)
    && (forall i, j :: 0 <= i < j < |t.picks| ==> t.picks[i].id < t.picks[j].id)
    && (forall i, j :: 0 <= i < j < |t.questions| ==> t.questions[i].id < t.questions[j].id)
    && (forall i, j :: 0 <= i < j < |t.gameQuestions| ==> t.gameQuestions[i].id < t.gameQuestions[j].id)
  }

  /** The foreign keys of the schema's `joinable!` declarations. */
  predicate ForeignKeysHold(t: Tables) {
    && (forall i :: 0 <= i < |t.rounds| ==> HasGame(t, t.rounds[i].gameId))
    && (forall i :: 0 <= i < |t.users| ==> HasGame(t, t.users[i].gameId))
    && (forall i :: 0 <= i < |t.picks| ==>
          HasUser(t, t.picks[i].userId) && HasQuestion(t, t.picks[i].questionId) && HasRound(t, t.picks[i].roundId))
    && (forall i :: 0 <= i < |t.gameQuestions| ==>
          HasGame(t, t.gameQuestions[i].gameId) && HasQuestion(t, t.gameQuestions[i].questionId))
  }

  predicate ValidTables(t: Tables) {
    KeysIncrease(t) && ForeignKeysHold(t)
  }

  // ---------------------------------------------------------------- row updates

  /** `update(rounds.find(id)).set(locked = true)`. */
  function WithLocked(rounds: seq<Round>, id: int): (rs: seq<Round>)
    ensures |rs| == |rounds|
  {
    seq(|rounds|, i requires 0 <= i < |rounds| => if rounds[i].id == id then rounds[i].(locked := true) else rounds[i])
  }

  /** `update(rounds.find(id)).set(finished = true)`. */
  function WithFinished(rounds: seq<Round>, id: int): (rs: seq<Round>)
    ensures |rs| == |rounds|
  {
    seq(|rounds|, i requires 0 <= i < |rounds| => if rounds[i].id == id then rounds[i].(finished := true) else rounds[i])
  }

  /** `update(users.filter(id = userId)).set(score = value)`. */
  function WithScore(users: seq<User>, userId: int, value: int): (us: seq<User>)
    ensures |us| == |users|
  {
    seq(|users|, i requires 0 <= i < |users| => if users[i].id == userId then users[i].(score := value) else users[i])
  }

  /** `update(users).set(session_id = token)`: no filter, so every row. */
  function WithSessionEverywhere(users: seq<User>, token: string): (us: seq<User>)
    ensures |us| == |users|
  {
    seq(|users|, i requires 0 <= i < |users| => users[i].(sessionId := Some(token)))
  }

  /** `update(games.find(id)).set(slug, creator)`. */
  function WithSlugAndCreator(games: seq<Game>, id: int, slug: string, creator: string): (gs: seq<Game>)
    ensures |gs| == |games|
  {
    seq(|games|, i requires 0 <= i < |games| =>
      if games[i].id == id then games[i].(slug := Some(slug), creator := Some(creator)) else games[i])
  }

  /** Locking touches only the rows with that id, sets their flag and nothing else, and locking twice is locking once. */
  lemma LockProperties(rounds: seq<Round>, id: int)
    ensures forall i :: 0 <= i < |rounds| && rounds[i].id != id ==> WithLocked(rounds, id)[i] == rounds[i]
    ensures forall i :: 0 <= i < |rounds| && rounds[i].id == id ==>
      WithLocked(rounds, id)[i] == Round(id, rounds[i].playerOne, rounds[i].playerTwo, rounds[i].gameId, true, rounds[i].finished)
    ensures WithLocked(WithLocked(rounds, id), id) == WithLocked(rounds, id)
  {
  }

  /** Finishing touches only the rows with that id, leaves `locked` alone, and is idempotent. */
  lemma FinishProperties(rounds: seq<Round>, id: int)
    ensures forall i :: 0 <= i < |rounds| && rounds[i].id != id ==> WithFinished(rounds, id)[i] == rounds[i]
    ensures forall i :: 0 <= i < |rounds| && rounds[i].id == id ==>
      WithFinished(rounds, id)[i] == Round(id, rounds[i].playerOne, rounds[i].playerTwo, rounds[i].gameId, rounds[i].locked, true)
    ensures WithFinished(WithFinished(rounds, id), id) == WithFinished(rounds, id)
  {
  }

  /** Locking the active round of a game makes the lookup fall through to another unlocked round of the
      game, or fail when there is none. */
  lemma LockingMovesActiveRound(t: Tables, gameId: int)
    requires ActiveRound(t, gameId).Ok?
    ensures var id := ActiveRound(t, gameId).value.id;
      var after := ActiveRound(t.(rounds := WithLocked(t.rounds, id)), gameId);
      && (after.Ok? <==> exists i :: 0 <= i < |t.rounds| && IsActive(t.rounds[i], gameId) && t.rounds[i].id != id)
      && (after.Ok? ==> after.value.id != id)
  {
    var id := ActiveRound(t, gameId).value.id;
    var rs := WithLocked(t.rounds, id);
    forall i | 0 <= i < |t.rounds|
      ensures IsActive(rs[i], gameId) <==> IsActive(t.rounds[i], gameId) && t.rounds[i].id != id
    {
    }
  }

  /** Once a round is finished it is no longer an unfinished round of any game. */
  lemma FinishedRoundIsNotUnfinished(t: Tables, gameId: int, id: int)
    ensures forall x :: x in WithFinished(t.rounds, id) && x.id == id ==> !IsUnfinished(x, gameId)
  {
  }
}
