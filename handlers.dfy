/** The projections the server pushes to clients: game status, round status and the open round's picks. */
module Handlers {
  import opened Errors
  import opened Models
  import opened Auth

  datatype StatusResponse = StatusResponse(slug: string, openRound: bool, unfinishedRound: bool)

  datatype RoundStatusResponse = RoundStatusResponse(
    playerNames: seq<string>,
    questions: seq<QuestionDetails>,
    roundId: int,
    locked: bool,
    finished: bool,
    picksChosen: bool)

  datatype RoundPicksResponse = RoundPicksResponse(data: seq<UserQuestion>, locked: bool)

  /** The fold behind `open_round`: the accumulator turns true at an unlocked round and stays true. */
  function OpenFold(rounds: seq<Round>, acc: bool): bool
    decreases |rounds|
  {
    if rounds == [] then acc else OpenFold(rounds[1..], if !rounds[0].locked then true else acc)
  }

  /** The fold behind `unfinished_round`: the accumulator turns true at an unfinished round. */
  function UnfinishedFold(rounds: seq<Round>, acc: bool): bool
    decreases |rounds|
  {
    if rounds == [] then acc else UnfinishedFold(rounds[1..], if !rounds[0].finished then true else acc)
  }

  lemma {:induction false} OpenFoldFindsUnlocked(rounds: seq<Round>, acc: bool)
    ensures OpenFold(rounds, acc) <==> acc || exists i :: 0 <= i < |rounds| && !rounds[i].locked
    decreases |rounds|
  {
    if rounds != [] {
      OpenFoldFindsUnlocked(rounds[1..], if !rounds[0].locked then true else acc);
      if exists i :: 0 <= i < |rounds| && !rounds[i].locked {
        var i :| 0 <= i < |rounds| && !rounds[i].locked;
        if i > 0 {
          assert !rounds[1..][i - 1].locked;
        }
      }
      if exists i :: 0 <= i < |rounds[1..]| && !rounds[1..][i].locked {
        var i :| 0 <= i < |rounds[1..]| && !rounds[1..][i].locked;
        assert !rounds[i + 1].locked;
      }
    }
  }

  lemma {:induction false} UnfinishedFoldFindsUnfinished(rounds: seq<Round>, acc: bool)
    ensures UnfinishedFold(rounds, acc) <==> acc || exists i :: 0 <= i < |rounds| && !rounds[i].finished
    decreases |rounds|
  {
    if rounds != [] {
      UnfinishedFoldFindsUnfinished(rounds[1..], if !rounds[0].finished then true else acc);
      if exists i :: 0 <= i < |rounds| && !rounds[i].finished {
        var i :| 0 <= i < |rounds| && !rounds[i].finished;
        if i > 0 {
          assert !rounds[1..][i - 1].finished;
        }
      }
      if exists i :: 0 <= i < |rounds[1..]| && !rounds[1..][i].finished {
        var i :| 0 <= i < |rounds[1..]| && !rounds[1..][i].finished;
        assert !rounds[i + 1].finished;
      }
    }
  }

  /** `get_game_status`: the game's slug (or "" when it has none) and whether any of its rounds is
      unlocked, and whether any is unfinished, locked or not. */
  function GameStatus(t: Tables, gameId: int): (r: Result<StatusResponse>)
    ensures FindGameById(t, gameId).Err? ==> r == Err(NotFound("Record not found"))
    ensures FindGameById(t, gameId).Ok? ==> r.Ok?
    ensures r.Ok? ==> r.value.slug == match FindGameById(t, gameId).value.slug case Some(s) => s case None => ""
    ensures r.Ok? ==> (r.value.openRound <==> exists x :: x in t.rounds && x.gameId == gameId && !x.locked)
    ensures r.Ok? ==> (r.value.unfinishedRound <==> exists x :: x in t.rounds && x.gameId == gameId && !x.finished)
  {
    var game :- FindGameById(t, gameId);
    var rounds := RoundsOfGame(t, game.id);
    OpenFoldFindsUnlocked(rounds, false);
    UnfinishedFoldFindsUnfinished(rounds, false);
    assert forall x :: x in rounds <==> x in t.rounds && x.gameId == gameId;
    Ok(StatusResponse(
      match game.slug case Some(s) => s case None => "",
      OpenFold(rounds, false),
      UnfinishedFold(rounds, false)))
  }

  /** A game without rounds reports neither an open nor an unfinished round. */
  lemma NoRoundsNoFlags(t: Tables, gameId: int)
    requires FindGameById(t, gameId).Ok?
    requires forall i :: 0 <= i < |t.rounds| ==> t.rounds[i].gameId != gameId
    ensures GameStatus(t, gameId).Ok?
    ensures !GameStatus(t, gameId).value.openRound && !GameStatus(t, gameId).value.unfinishedRound
  {
  }

  /** Another game's rounds make no difference to a game's status. */
  lemma StatusIgnoresOtherGames(t: Tables, gameId: int, other: Round)
    requires other.gameId != gameId
    ensures GameStatus(t.(rounds := t.rounds + [other]), gameId) == GameStatus(t, gameId)
  {
    var t' := t.(rounds := t.rounds + [other]);
    assert FindGameById(t', gameId) == FindGameById(t, gameId);
    assert forall x :: x in t'.rounds && x.gameId == gameId <==> x in t.rounds && x.gameId == gameId;
  }

  /** `get_round_status`: the latest round of the game with its players, the game's questions and,
      for a player, whether they already chose picks in that round. */
  function RoundStatus(t: Tables, role: Role, userId: int, gameId: int): (r: Result<RoundStatusResponse>)
    ensures LatestRound(t, gameId).Err? ==> r == Err(NotFound("Record not found"))
    ensures LatestRound(t, gameId).Ok? ==> r.Ok?
    ensures r.Ok? ==>
      var round := LatestRound(t, gameId).value;
      && r.value.playerNames == [round.playerOne, round.playerTwo]
      && r.value.roundId == round.id && r.value.locked == round.locked && r.value.finished == round.finished
      && r.value.questions == QuestionsOfGame(t, gameId)
      && (r.value.picksChosen <==> role == Player && exists p :: p in t.picks && p.roundId == round.id && p.userId == userId)
  {
    var round :- LatestRound(t, gameId);
    var questions := QuestionsOfGame(t, gameId);
    var picks := if role == Player then PicksOfRoundAndUser(t, round.id, userId) else [];
    assert |picks| > 0 ==> picks[0] in picks;
    Ok(RoundStatusResponse([round.playerOne, round.playerTwo], questions, round.id, round.locked, round.finished, |picks| > 0))
  }

  /** `get_round_picks`: every pick of the game's unlocked round. */
  function RoundPicks(t: Tables, gameId: int): (r: Result<RoundPicksResponse>)
    ensures ActiveRound(t, gameId).Err? ==> r == Err(NotFound("Record not found"))
    ensures ActiveRound(t, gameId).Ok? ==> r.Ok?
    ensures r.Ok? ==> !r.value.locked
    ensures r.Ok? ==> forall p :: p in r.value.data <==> p in t.picks && p.roundId == ActiveRound(t, gameId).value.id
  {
    var round :- ActiveRound(t, gameId);
    Ok(RoundPicksResponse(PicksOfRound(t, round.id), round.locked))
  }
}
