/** The round routes: creating a round, locking the open round and saving a player's picks. Each
    is a guard chain over the caller's claim and the tables, stated as a function, followed by the
    store changes and the pushes to the game's sessions. */
module RoundRoutes {
  import opened Errors
  import opened Text
  import opened Models
  import opened Auth
  import opened Handlers
  import opened Registry
  import opened Db
  import opened Notify
  import opened Validation

  /** A lookup whose `NotFound` is reported as `Forbidden`; other errors pass through. */
  function MissingIsForbidden<T>(r: Result<T>): (m: Result<T>)
    ensures r.Ok? ==> m == r
    ensures r.Err? && r.error.NotFound? ==> m == Err(Forbidden)
    ensures r.Err? && !r.error.NotFound? ==> m == r
  {
    if r.Err? && r.error.NotFound? then Err(Forbidden) else r
  }

  // ---------------------------------------------------------------- create

  /** The `length(min = 1)` rules of `CreateRoundRequest`. */
  function CreateRoundRules(playerOne: string, playerTwo: string): seq<Rule> {
    [Rule("player_one", |playerOne| >= 1), Rule("player_two", |playerTwo| >= 1)]
  }

  /** The guard chain of `create`: validation, then the claim, then the Owner role, then the claim's
      game (a missing one is Forbidden), then the game's creator token against the caller's token. */
  function CreateRoundGuard(t: Tables, jwt: Jwt, identity: Option<string>, playerOne: string, playerTwo: string): (r: Result<PrivateClaim>)
    ensures (playerOne == [] || playerTwo == []) ==>
      r == Err(ValidationError(Messages(CreateRoundRules(playerOne, playerTwo))))
    ensures playerOne != [] && playerTwo != [] && GetClaimFromIdentity(jwt, identity).Err? ==>
      r == Err(GetClaimFromIdentity(jwt, identity).error)
    ensures r.Ok? <==>
      && playerOne != [] && playerTwo != []
      && GetClaimFromIdentity(jwt, identity).Ok?
      && var (claim, token) := GetClaimFromIdentity(jwt, identity).value;
         && claim.role == Owner
         && FindGameById(t, claim.gameId).Ok?
         && FindGameById(t, claim.gameId).value.creator == Some(token)
    ensures r.Ok? ==> r.value == GetClaimFromIdentity(jwt, identity).value.0
    ensures r.Err? && playerOne != [] && playerTwo != [] && GetClaimFromIdentity(jwt, identity).Ok? ==> r.error == Forbidden
  {
    var _ :- Validate(CreateRoundRules(playerOne, playerTwo));
    var (claim, token) :- GetClaimFromIdentity(jwt, identity);
    if claim.role != Owner then Err(Forbidden)
    else
      var game :- MissingIsForbidden(FindGameById(t, claim.gameId));
      if game.creator.None? || game.creator.value != token then Err(Forbidden) else Ok(claim)
  }

  /** The guard never looks at the rounds table: an open round does not stop another from being created. */
  lemma CreateRoundGuardIgnoresRounds(t: Tables, rounds: seq<Round>, jwt: Jwt, identity: Option<string>, playerOne: string, playerTwo: string)
    ensures CreateRoundGuard(t.(rounds := rounds), jwt, identity, playerOne, playerTwo)
         == CreateRoundGuard(t, jwt, identity, playerOne, playerTwo)
  {
    assert FindGameById(t.(rounds := rounds), ClaimGame(jwt, identity)) == FindGameById(t, ClaimGame(jwt, identity));
  }

  /** The game the identity's claim names, or 0 when there is none (only used to name a lookup). */
  function ClaimGame(jwt: Jwt, identity: Option<string>): int {
    var c := GetClaimFromIdentity(jwt, identity);
    if c.Ok? then c.value.0.gameId else 0
  }

  /** A round appended with a fresh, larger id is the game's latest round and, being unlocked, makes
      the game report an open and an unfinished round. */
  lemma CreatedRoundIsLatestAndOpen(t: Tables, round: Round)
    requires FindGameById(t, round.gameId).Ok?
    requires !round.locked && !round.finished
    ensures LatestRound(t.(rounds := t.rounds + [round]), round.gameId) == Ok(round)
    ensures GameStatus(t.(rounds := t.rounds + [round]), round.gameId).Ok?
    ensures GameStatus(t.(rounds := t.rounds + [round]), round.gameId).value.openRound
    ensures GameStatus(t.(rounds := t.rounds + [round]), round.gameId).value.unfinishedRound
  {
    var t' := t.(rounds := t.rounds + [round]);
    assert FindGameById(t', round.gameId) == FindGameById(t, round.gameId);
    assert t'.rounds[|t.rounds|] == round;
    assert round in t'.rounds;
  }

  /** Two successful creations in a row leave two open rounds in the game: nothing enforces one. */
  lemma TwoCreationsLeaveTwoOpenRounds(t: Tables, first: Round, second: Round)
    requires first.gameId == second.gameId && first.id != second.id
    requires !first.locked && !second.locked
    ensures var after := t.(rounds := t.rounds + [first] + [second]);
      exists i, j :: 0 <= i < j < |after.rounds| && IsActive(after.rounds[i], first.gameId) && IsActive(after.rounds[j], first.gameId)
  {
    var after := t.(rounds := t.rounds + [first] + [second]);
    assert after.rounds[|t.rounds|] == first && after.rounds[|t.rounds| + 1] == second;
  }

  /** `rounds::create`. On a guard failure nothing changes. Otherwise one open round is added for the
      caller's game with the two names, and the game status and then the round status are pushed. */
  method CreateRound(store: Store, server: Server, jwt: Jwt, identity: Option<string>, playerOne: string, playerTwo: string, io: Io)
    returns (r: Result<Round>)
    requires store.Valid()
    modifies store, server
    ensures store.Valid()
    ensures server.sessions == old(server.sessions) && server.gameToSessions == old(server.gameToSessions)
    ensures var guard := CreateRoundGuard(old(store.Tables()), jwt, identity, playerOne, playerTwo);
      guard.Err? ==>
        && r == Err(guard.error)
        && store.Tables() == old(store.Tables()) && store.serials == old(store.serials)
        && server.outbox == old(server.outbox)
    ensures var guard := CreateRoundGuard(old(store.Tables()), jwt, identity, playerOne, playerTwo);
      guard.Ok? ==>
        var claim := guard.value;
        var round := Round(old(store.serials).round, playerOne, playerTwo, claim.gameId, false, false);
        && r == Ok(round)
        && store.Tables() == old(store.Tables()).(rounds := old(store.rounds) + [round])
        && store.serials == old(store.serials).(round := old(store.serials).round + 1)
        && server.outbox == old(server.outbox)
             + Published(server.gameToSessions, server.sessions, GameStatusNote(store.Tables(), claim.gameId, io), io)
             + Published(server.gameToSessions, server.sessions, RoundStatusNote(store.Tables(), claim.role, claim.id, claim.gameId, io), io)
  {
    var created := AddRound(store, jwt, identity, playerOne, playerTwo);
    if created.Err? {
      return Err(created.error);
    }
    var (claim, round) := created.value;
    SendGameStatus(server, store, claim.gameId, io);
    SendRoundStatus(server, store, claim.role, claim.id, claim.gameId, io);
    r := Ok(round);
  }

  /** The database part of `create`: the checks, then the insert, returning the caller's claim with
      the new round. */
  method AddRound(store: Store, jwt: Jwt, identity: Option<string>, playerOne: string, playerTwo: string)
    returns (r: Result<(PrivateClaim, Round)>)
    requires store.Valid()
    modifies store
    ensures store.Valid()
    ensures var guard := CreateRoundGuard(old(store.Tables()), jwt, identity, playerOne, playerTwo);
      guard.Err? ==>
        r == Err(guard.error) && store.Tables() == old(store.Tables()) && store.serials == old(store.serials)
    ensures var guard := CreateRoundGuard(old(store.Tables()), jwt, identity, playerOne, playerTwo);
      guard.Ok? ==>
        var round := Round(old(store.serials).round, playerOne, playerTwo, guard.value.gameId, false, false);
        && r == Ok((guard.value, round))
        && store.Tables() == old(store.Tables()).(rounds := old(store.rounds) + [round])
        && store.serials == old(store.serials).(round := old(store.serials).round + 1)
  {
    var guard := CreateRoundTarget(store, jwt, identity, playerOne, playerTwo);
    if guard.Err? {
      return Err(guard.error);
    }
    var claim := guard.value;
    assert HasGame(store.Tables(), claim.gameId);
    var created := store.CreateRound(claim.gameId, playerOne, playerTwo);
    r := Ok((claim, created.value));
  }

  /** The checks of `create`, in order, before the insert. */
  method CreateRoundTarget(store: Store, jwt: Jwt, identity: Option<string>, playerOne: string, playerTwo: string)
    returns (r: Result<PrivateClaim>)
    ensures r == CreateRoundGuard(store.Tables(), jwt, identity, playerOne, playerTwo)
  {
    var checked := Validate(CreateRoundRules(playerOne, playerTwo));
    if checked.Err? {
      return Err(checked.error);
    }
    var identified := GetClaimFromIdentity(jwt, identity);
    if identified.Err? {
      return Err(identified.error);
    }
    var (claim, token) := identified.value;
    if claim.role != Owner {
      return Err(Forbidden);
    }
    var game := MissingIsForbidden(FindGameById(store.Tables(), claim.gameId));
    if game.Err? {
      return Err(game.error);
    }
    if game.value.creator.None? || game.value.creator.value != token {
      return Err(Forbidden);
    }
    r := Ok(claim);
  }

  // ---------------------------------------------------------------- lock

  /** The guard chain of `lock_round`: the claim, the Owner role, then the game's open round. */
  function LockRoundTarget(t: Tables, jwt: Jwt, identity: Option<string>): (r: Result<(PrivateClaim, Round)>)
    ensures GetClaimFromIdentity(jwt, identity).Err? ==> r == Err(GetClaimFromIdentity(jwt, identity).error)
    ensures GetClaimFromIdentity(jwt, identity).Ok? ==>
      var claim := GetClaimFromIdentity(jwt, identity).value.0;
      && (claim.role != Owner ==> r == Err(Forbidden))
      && (claim.role == Owner ==> r == (if ActiveRound(t, claim.gameId).Ok? then Ok((claim, ActiveRound(t, claim.gameId).value))
                                       else Err(NotFound("Record not found"))))
  {
    var (claim, _) :- GetClaimFromIdentity(jwt, identity);
    if claim.role != Owner then Err(Forbidden)
    else
      var round :- ActiveRound(t, claim.gameId);
      Ok((claim, round))
  }

  /** `lock_round`. On a guard failure nothing changes. Otherwise the game's open round is locked, and
      the game status and then the round status are pushed. */
  method LockRound(store: Store, server: Server, jwt: Jwt, identity: Option<string>, io: Io) returns (r: Result<()>)
    requires store.Valid()
    modifies store, server
    ensures store.Valid()
    ensures store.serials == old(store.serials)
    ensures server.sessions == old(server.sessions) && server.gameToSessions == old(server.gameToSessions)
    ensures var target := LockRoundTarget(old(store.Tables()), jwt, identity);
      target.Err? ==>
        r == Err(target.error) && store.Tables() == old(store.Tables()) && server.outbox == old(server.outbox)
    ensures var target := LockRoundTarget(old(store.Tables()), jwt, identity);
      target.Ok? ==>
        var (claim, round) := target.value;
        && r == Ok(())
        && store.Tables() == old(store.Tables()).(rounds := WithLocked(old(store.rounds), round.id))
        && server.outbox == old(server.outbox)
             + Published(server.gameToSessions, server.sessions, GameStatusNote(store.Tables(), claim.gameId, io), io)
             + Published(server.gameToSessions, server.sessions, RoundStatusNote(store.Tables(), claim.role, claim.id, claim.gameId, io), io)
  {
    var locked := LockOpenRound(store, jwt, identity);
    if locked.Err? {
      return Err(locked.error);
    }
    var (claim, _) := locked.value;
    SendGameStatus(server, store, claim.gameId, io);
    SendRoundStatus(server, store, claim.role, claim.id, claim.gameId, io);
    r := Ok(());
  }

  /** The database part of `lock_round`: the checks, then the lock, returning the caller's claim with
      the round that was open. */
  method LockOpenRound(store: Store, jwt: Jwt, identity: Option<string>) returns (r: Result<(PrivateClaim, Round)>)
    requires store.Valid()
    modifies store
    ensures store.Valid()
    ensures store.serials == old(store.serials)
    ensures r == LockRoundTarget(old(store.Tables()), jwt, identity)
    ensures r.Err? ==> store.Tables() == old(store.Tables())
    ensures r.Ok? ==> store.Tables() == old(store.Tables()).(rounds := WithLocked(old(store.rounds), r.value.1.id))
  {
    var identified := GetClaimFromIdentity(jwt, identity);
    if identified.Err? {
      return Err(identified.error);
    }
    var (claim, _) := identified.value;
    if claim.role != Owner {
      return Err(Forbidden);
    }
    var round := ActiveRound(store.Tables(), claim.gameId);
    if round.Err? {
      return Err(round.error);
    }
    store.Lock(round.value.id);
    r := Ok((claim, round.value));
  }

  /** After a lock the locked round is no longer the game's open round, and the game status reports an
      open round only if another unlocked round of the game remains. */
  lemma LockedRoundIsNoLongerOpen(t: Tables, gameId: int)
    requires ActiveRound(t, gameId).Ok?
    ensures var id := ActiveRound(t, gameId).value.id;
      var after := t.(rounds := WithLocked(t.rounds, id));
      && (ActiveRound(after, gameId).Ok? ==> ActiveRound(after, gameId).value.id != id)
      && (FindGameById(t, gameId).Ok? ==>
            (GameStatus(after, gameId).value.openRound <==>
               exists x :: x in t.rounds && x.gameId == gameId && !x.locked && x.id != id))
  {
    var id := ActiveRound(t, gameId).value.id;
    var after := t.(rounds := WithLocked(t.rounds, id));
    LockingMovesActiveRound(t, gameId);
    assert FindGameById(after, gameId) == FindGameById(t, gameId);
    forall x | x in after.rounds
      ensures x.gameId == gameId && !x.locked <==> exists y :: y in t.rounds && y.gameId == gameId && !y.locked && y.id != id && y == x
    {
      var i :| 0 <= i < |after.rounds| && after.rounds[i] == x;
      assert t.rounds[i] in t.rounds;
    }
    forall y | y in t.rounds && y.gameId == gameId && !y.locked && y.id != id
      ensures y in after.rounds
    {
      var i :| 0 <= i < |t.rounds| && t.rounds[i] == y;
      assert after.rounds[i] == y;
    }
  }

  // ---------------------------------------------------------------- save picks

  /** One submitted pick: a question id and the chosen value. */
  datatype Answer = Answer(id: int, value: string)

  const AlreadyChosen := "User has already chosen picks for this round"

  /** `validate_user_has_not_picked`. */
  function HasNotPicked(t: Tables, userId: int, roundId: int): (r: Result<()>)
    ensures r.Ok? <==> forall p :: p in t.picks ==> !(p.roundId == roundId && p.userId == userId)
    ensures r.Err? ==> r.error == BadRequest(AlreadyChosen)
  {
    var picks := PicksOfRoundAndUser(t, roundId, userId);
    if |picks| > 0 then
      assert picks[0] in picks;
      Err(BadRequest(AlreadyChosen))
    else Ok(())
  }

  /** The ids of a list of questions. */
  function QuestionIds(questions: seq<QuestionDetails>): set<int> {
    set i | 0 <= i < |questions| :: questions[i].id
  }

  function CountMessage(answers: nat, questions: nat): string {
    "Received " + IntToDecimal(answers) + " answers, expected " + IntToDecimal(questions)
  }

  function InvalidIdMessage(id: int): string {
    "Invalid question id: " + IntToDecimal(id)
  }

  /** The position of the first answer whose id is not in `ids`, if any. */
  function FirstMissing(answers: seq<Answer>, ids: set<int>): (r: Option<nat>)
    ensures r.Some? ==> r.value < |answers| && answers[r.value].id !in ids
                        && forall j :: 0 <= j < r.value ==> answers[j].id in ids
    ensures r.None? <==> forall j :: 0 <= j < |answers| ==> answers[j].id in ids
    decreases |answers|
  {
    if answers == [] then None
    else if answers[0].id !in ids then Some(0)
    else match FirstMissing(answers[1..], ids)
      case None => None
      case Some(k) => Some(k + 1)
  }

  /** What `validate_selected_questions` decides, given the game's questions: the counts must agree,
      then the first answer, in input order, whose id is not a question id is reported. */
  function SelectionCheck(questions: seq<QuestionDetails>, answers: seq<Answer>): Result<()> {
    if |questions| != |answers| then Err(BadRequest(CountMessage(|answers|, |questions|)))
    else
      match FirstMissing(answers, QuestionIds(questions))
      case Some(i) => Err(BadRequest(InvalidIdMessage(answers[i].id)))
      case None => Ok(())
  }

  /** The count check comes first; with equal counts the request passes exactly when every answer
      names one of the game's questions, and otherwise fails on the first answer that does not. */
  lemma SelectionCheckMeaning(questions: seq<QuestionDetails>, answers: seq<Answer>)
    ensures |questions| != |answers| ==>
      SelectionCheck(questions, answers) == Err(BadRequest(CountMessage(|answers|, |questions|)))
    ensures SelectionCheck(questions, answers).Ok? <==>
      |questions| == |answers|
      && forall i :: 0 <= i < |answers| ==> exists k :: 0 <= k < |questions| && questions[k].id == answers[i].id
    ensures |questions| == |answers| && SelectionCheck(questions, answers).Err? ==>
      exists i :: 0 <= i < |answers|
        && (forall k :: 0 <= k < |questions| ==> questions[k].id != answers[i].id)
        && (forall j :: 0 <= j < i ==> answers[j].id in QuestionIds(questions))
        && SelectionCheck(questions, answers) == Err(BadRequest(InvalidIdMessage(answers[i].id)))
  {
    var ids := QuestionIds(questions);
    forall id ensures id in ids <==> exists k :: 0 <= k < |questions| && questions[k].id == id {
    }
  }

  /** Membership is the only per-answer check: when the counts agree, answers that all name one
      and the same question of the game pass, however many times that id repeats. */
  lemma RepeatedIdPasses(questions: seq<QuestionDetails>, answers: seq<Answer>, k: nat)
    requires k < |questions| && |answers| == |questions|
    requires forall i :: 0 <= i < |answers| ==> answers[i].id == questions[k].id
    ensures SelectionCheck(questions, answers) == Ok(())
  {
    assert questions[k].id in QuestionIds(questions);
    assert FirstMissing(answers, QuestionIds(questions)).None?;
  }

  /** `validate_selected_questions`: build the set of the game's question ids, then scan the answers. */
  method ValidateSelectedQuestions(store: Store, gameId: int, answers: seq<Answer>) returns (r: Result<()>)
    ensures r == SelectionCheck(QuestionsOfGame(store.Tables(), gameId), answers)
  {
    var questions := QuestionsOfGame(store.Tables(), gameId);
    r := CheckSelection(questions, answers);
  }

  /** The two loops of `validate_selected_questions` over the fetched questions. */
  method CheckSelection(questions: seq<QuestionDetails>, answers: seq<Answer>) returns (r: Result<()>)
    ensures r == SelectionCheck(questions, answers)
  {
    if |questions| != |answers| {
      return Err(BadRequest(CountMessage(|answers|, |questions|)));
    }
    var ids: set<int> := {};
    var i := 0;
    while i < |questions|
      invariant 0 <= i <= |questions|
      invariant forall id :: id in ids <==> exists k :: 0 <= k < i && questions[k].id == id
    {
      ids := ids + {questions[i].id};
      i := i + 1;
    }
    assert forall id :: id in ids <==> id in QuestionIds(questions);
    assert ids == QuestionIds(questions);
    var j := 0;
    while j < |answers|
      invariant 0 <= j <= |answers|
      invariant forall k :: 0 <= k < j ==> answers[k].id in ids
    {
      if answers[j].id !in ids {
        FirstMissingIsFound(answers, ids, j);
        return Err(BadRequest(InvalidIdMessage(answers[j].id)));
      }
      j := j + 1;
    }
    r := Ok(());
  }

  /** The first answer missing from the set is the one `FirstMissing` finds. */
  lemma FirstMissingIsFound(answers: seq<Answer>, ids: set<int>, j: nat)
    requires j < |answers| && answers[j].id !in ids
    requires forall k :: 0 <= k < j ==> answers[k].id in ids
    ensures FirstMissing(answers, ids) == Some(j)
  {
  }

  /** The guard chain of `save_picks`: the claim, the Player role, the game's open round, no earlier
      pick of the caller in it, then the answers against the game's questions. */
  function SavePicksGuard(t: Tables, jwt: Jwt, identity: Option<string>, answers: seq<Answer>): Result<(PrivateClaim, Round)>
  {
    var (claim, _) :- GetClaimFromIdentity(jwt, identity);
    if claim.role != Player then Err(Forbidden)
    else
      var round :- ActiveRound(t, claim.gameId);
      var _ :- HasNotPicked(t, claim.id, round.id);
      var _ :- SelectionCheck(QuestionsOfGame(t, claim.gameId), answers);
      Ok((claim, round))
  }

  /** The order of the checks of `save_picks`: the role, then the open round, then an earlier pick
      of the caller (which fails whatever the answers are), and only then the answers. */
  lemma SavePicksCheckOrder(t: Tables, jwt: Jwt, identity: Option<string>, answers: seq<Answer>)
    requires GetClaimFromIdentity(jwt, identity).Ok?
    ensures var claim := GetClaimFromIdentity(jwt, identity).value.0;
      var guard := SavePicksGuard(t, jwt, identity, answers);
      && (claim.role != Player ==> guard == Err(Forbidden))
      && (claim.role == Player && ActiveRound(t, claim.gameId).Err? ==> guard == Err(NotFound("Record not found")))
      && (claim.role == Player && ActiveRound(t, claim.gameId).Ok? ==>
            var round := ActiveRound(t, claim.gameId).value;
            && (HasNotPicked(t, claim.id, round.id).Err? ==> guard == Err(BadRequest(AlreadyChosen)))
            && (HasNotPicked(t, claim.id, round.id).Ok? ==>
                  guard == (if SelectionCheck(QuestionsOfGame(t, claim.gameId), answers).Ok? then Ok((claim, round))
                            else Err(SelectionCheck(QuestionsOfGame(t, claim.gameId), answers).error))))
  {
  }

  /** The picks `save_picks` inserts: one per answer, in answer order, with consecutive serial ids. */
  function NewPicks(userId: int, roundId: int, answers: seq<Answer>, firstId: int): (ps: seq<UserQuestion>)
    ensures |ps| == |answers|
    ensures forall k :: 0 <= k < |answers| ==>
      ps[k] == UserQuestion(firstId + k, userId, answers[k].id, roundId, answers[k].value)
  {
    seq(|answers|, k requires 0 <= k < |answers| => UserQuestion(firstId + k, userId, answers[k].id, roundId, answers[k].value))
  }

  /** What `save_picks` returns and leaves in the tables and serials. On a guard failure nothing
      changes; otherwise the inserts below run for the caller in the open round. */
  function SavePicksEffect(t: Tables, s: Serials, jwt: Jwt, identity: Option<string>, answers: seq<Answer>): (Result<()>, Tables, Serials) {
    match SavePicksGuard(t, jwt, identity, answers)
    case Err(e) => (Err(e), t, s)
    case Ok(target) => InsertEffect(t, s, target.0.id, target.1.id, answers)
  }

  /** The inserts of `save_picks`: one pick per answer. They are not in a transaction, and one fails
      only when the caller has no user row, which makes the very first insert fail (consuming one
      serial value) and leaves the picks as they were. */
  function InsertEffect(t: Tables, s: Serials, userId: int, roundId: int, answers: seq<Answer>): (Result<()>, Tables, Serials) {
    if |answers| > 0 && !HasUser(t, userId) then
      (Err(FromDbError(ForeignKeyFailure)), t, s.(pick := s.pick + 1))
    else
      (Ok(()), t.(picks := t.picks + NewPicks(userId, roundId, answers, s.pick)), s.(pick := s.pick + |answers|))
  }

  /** The database part of `save_picks`: the effect above, and on success the caller's game. */
  method SaveAnswers(store: Store, jwt: Jwt, identity: Option<string>, answers: seq<Answer>)
    returns (r: Result<()>, gameId: int)
    requires store.Valid()
    modifies store
    ensures store.Valid()
    ensures (r, store.Tables(), store.serials) == SavePicksEffect(old(store.Tables()), old(store.serials), jwt, identity, answers)
    ensures r.Ok? ==> gameId == SavePicksGuard(old(store.Tables()), jwt, identity, answers).value.0.gameId
  {
    var target := SavePicksTarget(store, jwt, identity, answers);
    if target.Err? {
      return Err(target.error), 0;
    }
    var (claim, round) := target.value;
    GuardedPicksAreInsertable(store.Tables(), jwt, identity, answers);
    r := InsertAnswers(store, claim.id, round.id, answers);
    gameId := claim.gameId;
  }

  /** `save_picks`: the effect above, then, on success, the open round's picks pushed on `/picks`. */
  method SavePicks(store: Store, server: Server, jwt: Jwt, identity: Option<string>, answers: seq<Answer>, io: Io)
    returns (r: Result<()>)
    requires store.Valid()
    modifies store, server
    ensures store.Valid()
    ensures server.sessions == old(server.sessions) && server.gameToSessions == old(server.gameToSessions)
    ensures (r, store.Tables(), store.serials) == SavePicksEffect(old(store.Tables()), old(store.serials), jwt, identity, answers)
    ensures r.Err? ==> server.outbox == old(server.outbox)
    ensures r.Ok? ==>
      var gameId := SavePicksGuard(old(store.Tables()), jwt, identity, answers).value.0.gameId;
      server.outbox == old(server.outbox) + Published(server.gameToSessions, server.sessions, PicksNote(store.Tables(), gameId, io), io)
  {
    var gameId;
    r, gameId := SaveAnswers(store, jwt, identity, answers);
    if r.Ok? {
      Publish(server, PicksNote(store.Tables(), gameId, io), io);
    }
  }

  /** The checks of `save_picks`, in order, before any insert. */
  method SavePicksTarget(store: Store, jwt: Jwt, identity: Option<string>, answers: seq<Answer>)
    returns (r: Result<(PrivateClaim, Round)>)
    ensures r == SavePicksGuard(store.Tables(), jwt, identity, answers)
  {
    ghost var guard := SavePicksGuard(store.Tables(), jwt, identity, answers);
    var identified := GetClaimFromIdentity(jwt, identity);
    if identified.Err? {
      return Err(identified.error);
    }
    var (claim, _) := identified.value;
    if claim.role != Player {
      return Err(Forbidden);
    }
    var active := ActiveRound(store.Tables(), claim.gameId);
    if active.Err? {
      return Err(active.error);
    }
    var round := active.value;
    var picked := HasNotPicked(store.Tables(), claim.id, round.id);
    if picked.Err? {
      return Err(picked.error);
    }
    var selection := ValidateSelectedQuestions(store, claim.gameId, answers);
    if selection.Err? {
      return Err(selection.error);
    }
    r := Ok((claim, round));
  }

  /** A request that passes the checks names an existing round and only existing questions, so every
      insert's foreign keys hold except, possibly, the caller's user row. */
  lemma GuardedPicksAreInsertable(t: Tables, jwt: Jwt, identity: Option<string>, answers: seq<Answer>)
    requires SavePicksGuard(t, jwt, identity, answers).Ok?
    ensures HasRound(t, SavePicksGuard(t, jwt, identity, answers).value.1.id)
    ensures forall i :: 0 <= i < |answers| ==> HasQuestion(t, answers[i].id)
  {
    var (claim, round) := SavePicksGuard(t, jwt, identity, answers).value;
    var k :| 0 <= k < |t.rounds| && t.rounds[k] == round;
    var questions := QuestionsOfGame(t, claim.gameId);
    SelectionCheckMeaning(questions, answers);
    forall i | 0 <= i < |answers| ensures HasQuestion(t, answers[i].id) {
      var j :| 0 <= j < |questions| && questions[j].id == answers[i].id;
      assert questions[j] in questions;
    }
  }

  lemma InsertEffectFails(t: Tables, s: Serials, userId: int, roundId: int, answers: seq<Answer>)
    requires |answers| > 0 && !HasUser(t, userId)
    ensures InsertEffect(t, s, userId, roundId, answers) == (Err(FromDbError(ForeignKeyFailure)), t, s.(pick := s.pick + 1))
  {
  }

  lemma InsertEffectSucceeds(t: Tables, s: Serials, userId: int, roundId: int, answers: seq<Answer>)
    requires |answers| == 0 || HasUser(t, userId)
    ensures InsertEffect(t, s, userId, roundId, answers)
      == (Ok(()), t.(picks := t.picks + NewPicks(userId, roundId, answers, s.pick)), s.(pick := s.pick + |answers|))
  {
  }

  /** The inserts of `save_picks` as one effect. */
  method InsertAnswers(store: Store, userId: int, roundId: int, answers: seq<Answer>)
    returns (r: Result<()>)
    requires store.Valid()
    requires HasRound(store.Tables(), roundId)
    requires forall i :: 0 <= i < |answers| ==> HasQuestion(store.Tables(), answers[i].id)
    modifies store
    ensures store.Valid()
    ensures (r, store.Tables(), store.serials) == InsertEffect(old(store.Tables()), old(store.serials), userId, roundId, answers)
  {
    ghost var t0, s0 := store.Tables(), store.serials;
    r := InsertPicks(store, userId, roundId, answers);
    if |answers| > 0 && !HasUser(t0, userId) {
      InsertEffectFails(t0, s0, userId, roundId, answers);
    } else {
      InsertEffectSucceeds(t0, s0, userId, roundId, answers);
    }
  }

  /** The insert loop of `save_picks`, over answers already checked against the game's questions. */
  method InsertPicks(store: Store, userId: int, roundId: int, answers: seq<Answer>)
    returns (r: Result<()>)
    requires store.Valid()
    requires HasRound(store.Tables(), roundId)
    requires forall i :: 0 <= i < |answers| ==> HasQuestion(store.Tables(), answers[i].id)
    modifies store
    ensures store.Valid()
    ensures |answers| > 0 && !HasUser(old(store.Tables()), userId) ==>
      && r == Err(FromDbError(ForeignKeyFailure))
      && store.Tables() == old(store.Tables())
      && store.serials == old(store.serials).(pick := old(store.serials).pick + 1)
    ensures |answers| == 0 || HasUser(old(store.Tables()), userId) ==>
      && r == Ok(())
      && store.Tables() == old(store.Tables()).(picks := old(store.picks) + NewPicks(userId, roundId, answers, old(store.serials).pick))
      && store.serials == old(store.serials).(pick := old(store.serials).pick + |answers|)
  {
    ghost var t0 := store.Tables();
    ghost var s0 := store.serials;
    ghost var all := NewPicks(userId, roundId, answers, s0.pick);
    var i := 0;
    while i < |answers|
      invariant 0 <= i <= |answers|
      invariant store.Valid()
      invariant store.games == t0.games && store.rounds == t0.rounds && store.users == t0.users
      invariant store.questions == t0.questions && store.gameQuestions == t0.gameQuestions
      invariant store.picks == t0.picks + all[..i]
      invariant store.serials == s0.(pick := s0.pick + i)
      invariant i > 0 ==> HasUser(t0, userId)
    {
      ghost var before := store.picks;
      ghost var beforeT := store.Tables();
      ghost var target := t0.picks + all[..i + 1];
      assert all[..i + 1] == all[..i] + [all[i]];
      assert target == before + [all[i]];
      assert HasQuestion(store.Tables(), answers[i].id) && HasRound(store.Tables(), roundId);
      assert HasUser(store.Tables(), userId) == HasUser(t0, userId);
      var inserted := store.CreatePick(userId, answers[i].id, roundId, answers[i].value);
      if inserted.Err? {
        return Err(inserted.error);
      }
      assert store.Tables() == beforeT.(picks := beforeT.picks + [inserted.value]);
      assert inserted.value == all[i];
      assert store.picks == target;
      i := i + 1;
    }
    assert all[..|answers|] == all;
    r := Ok(());
  }

  /** After a successful save with at least one answer, the same caller fails the next save with
      "User has already chosen picks for this round", the round still being the game's open round. */
  lemma SecondSaveIsRefused(t: Tables, userId: int, gameId: int, answers: seq<Answer>, firstId: int)
    requires ActiveRound(t, gameId).Ok? && |answers| > 0
    ensures var round := ActiveRound(t, gameId).value;
      var after := t.(picks := t.picks + NewPicks(userId, round.id, answers, firstId));
      && ActiveRound(after, gameId) == ActiveRound(t, gameId)
      && HasNotPicked(after, userId, round.id) == Err(BadRequest(AlreadyChosen))
  {
    var round := ActiveRound(t, gameId).value;
    var after := t.(picks := t.picks + NewPicks(userId, round.id, answers, firstId));
    assert after.rounds == t.rounds;
    assert after.picks[|t.picks|] in after.picks;
  }

  /** Every inserted pick carries the caller and the open round, and the earlier picks are kept. */
  lemma NewPicksBelongToCallerAndRound(t: Tables, userId: int, roundId: int, answers: seq<Answer>, firstId: int)
    ensures var after := t.picks + NewPicks(userId, roundId, answers, firstId);
      && after[..|t.picks|] == t.picks
      && |after| == |t.picks| + |answers|
      && forall k :: |t.picks| <= k < |after| ==> after[k].userId == userId && after[k].roundId == roundId
  {
  }
}
