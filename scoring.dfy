/** `score_round`: the owner submits the right answers; every pick of the game's unfinished round is
    compared with every answer, each match adds one point to the picking player's tally, the tallies
    are added to the players' scores, the round is finished, and the statuses are pushed. */
module Scoring {
  import opened Errors
  import opened Models
  import opened Auth
  import opened Handlers
  import opened Registry
  import opened Db
  import opened Notify

  /** One element of the request's `answers`. */
  datatype KeyAnswer = KeyAnswer(answer: string, questionId: int)

  /** The tally's test: same question, same answer string. */
  predicate Matches(p: UserQuestion, a: KeyAnswer) {
    a.questionId == p.questionId && a.answer == p.answer
  }

  // ---------------------------------------------------------------- the tally

  /** The number of submitted answers that match one pick; a repeated answer counts each time. */
  function Hits(p: UserQuestion, answers: seq<KeyAnswer>): nat
    decreases |answers|
  {
    if answers == [] then 0
    else Hits(p, answers[..|answers| - 1]) + (if Matches(p, answers[|answers| - 1]) then 1 else 0)
  }

  /** A player's tally: the matching (pick, answer) pairs over that player's picks. */
  function Tally(picks: seq<UserQuestion>, answers: seq<KeyAnswer>, userId: int): nat
    decreases |picks|
  {
    if picks == [] then 0
    else
      var p := picks[|picks| - 1];
      Tally(picks[..|picks| - 1], answers, userId) + (if p.userId == userId then Hits(p, answers) else 0)
  }

  /** All matching (pick, answer) pairs, whoever made the pick. */
  function TotalHits(picks: seq<UserQuestion>, answers: seq<KeyAnswer>): nat
    decreases |picks|
  {
    if picks == [] then 0 else TotalHits(picks[..|picks| - 1], answers) + Hits(picks[|picks| - 1], answers)
  }

  /** `scores.get(&id).unwrap_or(&0)`. */
  function Get(scores: map<int, int>, id: int): int {
    if id in scores then scores[id] else 0
  }

  /** The nested loop of `score_round`: for each pick, for each answer, one point on a match. The map
      holds exactly the players with a positive tally, each with that tally. */
  method TallyScores(picks: seq<UserQuestion>, answers: seq<KeyAnswer>) returns (scores: map<int, int>)
    ensures forall u :: u in scores <==> Tally(picks, answers, u) > 0
    ensures forall u :: u in scores ==> scores[u] == Tally(picks, answers, u)
  {
    scores := map[];
    var i := 0;
    while i < |picks|
      invariant 0 <= i <= |picks|
      invariant forall u :: Get(scores, u) == Tally(picks[..i], answers, u)
      invariant forall u :: u in scores ==> scores[u] > 0
    {
      var uq := picks[i];
      var j := 0;
      while j < |answers|
        invariant 0 <= j <= |answers|
        invariant forall u :: Get(scores, u) == Tally(picks[..i], answers, u) + (if u == uq.userId then Hits(uq, answers[..j]) else 0)
        invariant forall u :: u in scores ==> scores[u] > 0
      {
        var answer := answers[j];
        if answer.questionId == uq.questionId && answer.answer == uq.answer {
          var score := if uq.userId in scores then scores[uq.userId] else 0;
          scores := scores[uq.userId := score + 1];
        }
        assert answers[..j + 1][..j] == answers[..j];
        j := j + 1;
      }
      assert answers[..j] == answers;
      assert picks[..i + 1][..i] == picks[..i];
      i := i + 1;
    }
    assert picks[..i] == picks;
  }

  /** Only a player with a pick in the list can have a positive tally. */
  lemma {:induction false} TallyNeedsPick(picks: seq<UserQuestion>, answers: seq<KeyAnswer>, userId: int)
    requires Tally(picks, answers, userId) > 0
    ensures exists i :: 0 <= i < |picks| && picks[i].userId == userId
    decreases |picks|
  {
    var init := picks[..|picks| - 1];
    if picks[|picks| - 1].userId != userId {
      TallyNeedsPick(init, answers, userId);
      var i :| 0 <= i < |init| && init[i].userId == userId;
      assert picks[i] == init[i];
    }
  }

  /** Submitting the answers in two parts tallies the same as submitting them at once. */
  lemma {:induction false} HitsAppend(p: UserQuestion, a1: seq<KeyAnswer>, a2: seq<KeyAnswer>)
    ensures Hits(p, a1 + a2) == Hits(p, a1) + Hits(p, a2)
    decreases |a2|
  {
    if a2 != [] {
      var init := a2[..|a2| - 1];
      assert (a1 + a2)[..|a1 + a2| - 1] == a1 + init;
      HitsAppend(p, a1, init);
    } else {
      assert a1 + a2 == a1;
    }
  }

  /** A tally is additive in the submitted answers. */
  lemma {:induction false} TallyAppendAnswers(picks: seq<UserQuestion>, a1: seq<KeyAnswer>, a2: seq<KeyAnswer>, userId: int)
    ensures Tally(picks, a1 + a2, userId) == Tally(picks, a1, userId) + Tally(picks, a2, userId)
    decreases |picks|
  {
    if picks != [] {
      TallyAppendAnswers(picks[..|picks| - 1], a1, a2, userId);
      HitsAppend(picks[|picks| - 1], a1, a2);
    }
  }

  /** Duplicates count additively: submitting every answer twice doubles every tally. */
  lemma RepeatedAnswersCountTwice(picks: seq<UserQuestion>, answers: seq<KeyAnswer>, userId: int)
    ensures Tally(picks, answers + answers, userId) == 2 * Tally(picks, answers, userId)
  {
    TallyAppendAnswers(picks, answers, answers, userId);
  }

  // ---------------------------------------------------------------- the score updates

  /** The users after every tallied player's score has gone up by their tally. */
  function Scored(users: seq<User>, picks: seq<UserQuestion>, answers: seq<KeyAnswer>): (us: seq<User>)
    ensures |us| == |users|
  {
    seq(|users|, i requires 0 <= i < |users| => users[i].(score := users[i].score + Tally(picks, answers, users[i].id)))
  }

  /** The users after the players in `done` have had their map entry added. */
  ghost predicate RaisedSoFar(users0: seq<User>, users: seq<User>, scores: map<int, int>, done: set<int>) {
    && |users| == |users0|
    && forall i :: 0 <= i < |users0| ==>
         users[i] == users0[i].(score := users0[i].score + (if users0[i].id in done then Get(scores, users0[i].id) else 0))
  }

  /** One `add_score` of the loop: the row with that id, and only it, gets the map entry added. */
  lemma RaiseStep(users0: seq<User>, users: seq<User>, scores: map<int, int>, done: set<int>, u: int)
    requires RaisedSoFar(users0, users, scores, done)
    requires u in scores && u !in done
    requires forall i, j :: 0 <= i < j < |users| ==> users[i].id < users[j].id
    requires UserIdIn(users, u)
    ensures RaisedSoFar(users0, WithScore(users, u, users[FirstUserIndex(users, u)].score + scores[u]), scores, done + {u})
  {
    var k := FirstUserIndex(users, u);
    var after := WithScore(users, u, users[k].score + scores[u]);
    forall i | 0 <= i < |users0|
      ensures after[i] == users0[i].(score := users0[i].score + (if users0[i].id in done + {u} then Get(scores, users0[i].id) else 0))
    {
      if users[i].id == u {
        assert i == k;
      }
    }
  }

  /** The `add_score` loop over the tally map, in the map's iteration order. Every key is a user, so
      no call fails, and every user's score goes up by its entry. */
  method AddScores(store: Store, scores: map<int, int>)
    requires store.Valid()
    requires forall u :: u in scores ==> UserIdIn(store.users, u)
    modifies store
    ensures store.Valid() && store.serials == old(store.serials)
    ensures store.Tables() == old(store.Tables()).(users := store.users)
    ensures RaisedSoFar(old(store.users), store.users, scores, scores.Keys)
  {
    ghost var users0 := store.users;
    ghost var done: set<int> := {};
    var remaining := scores.Keys;
    while remaining != {}
      invariant remaining !! done && remaining + done == scores.Keys
      invariant store.Valid() && store.serials == old(store.serials)
      invariant store.Tables() == old(store.Tables()).(users := store.users)
      invariant RaisedSoFar(users0, store.users, scores, done)
      decreases |remaining|
    {
      remaining, done := AddNextScore(store, scores, users0, remaining, done);
    }
  }

  /** One iteration of the `add_score` loop: some key not yet visited gets its entry added. */
  method AddNextScore(store: Store, scores: map<int, int>, ghost users0: seq<User>, remaining: set<int>, ghost done: set<int>)
      returns (remaining': set<int>, ghost done': set<int>)
    requires store.Valid()
    requires remaining != {} && remaining !! done && remaining + done == scores.Keys
    requires forall u :: u in scores ==> UserIdIn(users0, u)
    requires RaisedSoFar(users0, store.users, scores, done)
    modifies store
    ensures remaining' !! done' && remaining' + done' == scores.Keys && |remaining'| < |remaining|
    ensures store.Valid() && store.serials == old(store.serials)
    ensures store.Tables() == old(store.Tables()).(users := store.users)
    ensures RaisedSoFar(users0, store.users, scores, done')
  {
    SomeKey(remaining);
    var u :| u in remaining;
    RaisingKeepsIds(users0, store.users, scores, done, u);
    AddKeyScore(store, scores, users0, done, u);
    remaining' := remaining - {u};
    done' := done + {u};
  }

  lemma RaisingKeepsIds(users0: seq<User>, users: seq<User>, scores: map<int, int>, done: set<int>, u: int)
    requires RaisedSoFar(users0, users, scores, done)
    requires UserIdIn(users0, u)
    ensures UserIdIn(users, u)
  {
    var w :| 0 <= w < |users0| && users0[w].id == u;
    assert users[w].id == u;
  }

  /** A non-empty set of keys has an element to visit next. */
  lemma SomeKey(s: set<int>)
    requires s != {}
    ensures exists x :: x in s
  {
    if forall x :: x !in s {
      assert false;
    }
  }

  /** The `add_score` call of one key. */
  method AddKeyScore(store: Store, scores: map<int, int>, ghost users0: seq<User>, ghost done: set<int>, u: int)
    requires store.Valid()
    requires RaisedSoFar(users0, store.users, scores, done)
    requires u in scores && u !in done && UserIdIn(store.users, u)
    modifies store
    ensures store.Valid() && store.serials == old(store.serials)
    ensures store.Tables() == old(store.Tables()).(users := store.users)
    ensures RaisedSoFar(users0, store.users, scores, done + {u})
  {
    RaiseStep(users0, store.users, scores, done, u);
    var _ := store.AddScore(u, scores[u]);
  }

  /** Once every key is done, the users are the scored users of the tallied picks. */
  lemma RaisedIsScored(users0: seq<User>, users: seq<User>, scores: map<int, int>, picks: seq<UserQuestion>, answers: seq<KeyAnswer>)
    requires RaisedSoFar(users0, users, scores, scores.Keys)
    requires forall u :: u in scores <==> Tally(picks, answers, u) > 0
    requires forall u :: u in scores ==> scores[u] == Tally(picks, answers, u)
    ensures users == Scored(users0, picks, answers)
  {
    forall i | 0 <= i < |users0|
      ensures users[i] == Scored(users0, picks, answers)[i]
    {
      var id := users0[i].id;
      if id !in scores {
        assert Tally(picks, answers, id) == 0;
      }
    }
  }

  // ---------------------------------------------------------------- the route

  /** The guards of `score_round`: a claim, the Owner role, then the game's locked, unfinished round. */
  function ScoreRoundTarget(t: Tables, jwt: Jwt, identity: Option<string>): (r: Result<(PrivateClaim, Round)>)
    ensures GetClaimFromIdentity(jwt, identity).Err? ==> r == Err(GetClaimFromIdentity(jwt, identity).error)
    ensures GetClaimFromIdentity(jwt, identity).Ok? ==>
      var claim := GetClaimFromIdentity(jwt, identity).value.0;
      && (claim.role != Owner ==> r == Err(Forbidden))
      && (claim.role == Owner ==> r == (if UnfinishedRound(t, claim.gameId).Ok? then Ok((claim, UnfinishedRound(t, claim.gameId).value))
                                       else Err(NotFound("Record not found"))))
  {
    var (claim, _) :- GetClaimFromIdentity(jwt, identity);
    if claim.role != Owner then Err(Forbidden)
    else
      var round :- UnfinishedRound(t, claim.gameId);
      Ok((claim, round))
  }

  /** The tables after scoring round `roundId`: scores raised by the tallies of its picks, round finished. */
  function ScoreEffect(t: Tables, roundId: int, answers: seq<KeyAnswer>): Tables {
    t.(users := Scored(t.users, PicksOfRound(t, roundId), answers), rounds := WithFinished(t.rounds, roundId))
  }

  /** Every player of a round's picks is a user, by the picks' foreign key. */
  lemma TalliedPlayersExist(t: Tables, roundId: int, answers: seq<KeyAnswer>, u: int)
    requires ValidTables(t)
    requires Tally(PicksOfRound(t, roundId), answers, u) > 0
    ensures HasUser(t, u)
  {
    var picks := PicksOfRound(t, roundId);
    TallyNeedsPick(picks, answers, u);
    var i :| 0 <= i < |picks| && picks[i].userId == u;
    assert picks[i] in t.picks;
  }

  /** `score_round`. On a guard failure nothing changes and nothing is pushed. Otherwise every player's
      score rises by their tally over the round's picks, the round is finished, and the game status and
      then the round status are pushed. */
  method ScoreRound(store: Store, server: Server, jwt: Jwt, identity: Option<string>, answers: seq<KeyAnswer>, io: Io)
      returns (r: Result<()>)
    requires store.Valid()
    modifies store, server
    ensures store.Valid()
    ensures store.serials == old(store.serials)
    ensures server.sessions == old(server.sessions) && server.gameToSessions == old(server.gameToSessions)
    ensures var target := ScoreRoundTarget(old(store.Tables()), jwt, identity);
      target.Err? ==>
        r == Err(target.error) && store.Tables() == old(store.Tables()) && server.outbox == old(server.outbox)
    ensures var target := ScoreRoundTarget(old(store.Tables()), jwt, identity);
      target.Ok? ==>
        var (claim, round) := target.value;
        && r == Ok(())
        && store.Tables() == ScoreEffect(old(store.Tables()), round.id, answers)
        && server.outbox == old(server.outbox)
             + Published(server.gameToSessions, server.sessions, GameStatusNote(store.Tables(), claim.gameId, io), io)
             + Published(server.gameToSessions, server.sessions, RoundStatusNote(store.Tables(), claim.role, claim.id, claim.gameId, io), io)
  {
    var scored := ScoreAndFinish(store, jwt, identity, answers);
    if scored.Err? {
      return Err(scored.error);
    }
    var (claim, _) := scored.value;
    SendGameStatus(server, store, claim.gameId, io);
    SendRoundStatus(server, store, claim.role, claim.id, claim.gameId, io);
    r := Ok(());
  }

  /** The database part of `score_round`: the guards, the tally, the score updates and the finish. */
  method ScoreAndFinish(store: Store, jwt: Jwt, identity: Option<string>, answers: seq<KeyAnswer>)
      returns (r: Result<(PrivateClaim, Round)>)
    requires store.Valid()
    modifies store
    ensures store.Valid()
    ensures store.serials == old(store.serials)
    ensures r == ScoreRoundTarget(old(store.Tables()), jwt, identity)
    ensures r.Err? ==> store.Tables() == old(store.Tables())
    ensures r.Ok? ==> store.Tables() == ScoreEffect(old(store.Tables()), r.value.1.id, answers)
  {
    r := ScoreTarget(store, jwt, identity);
    if r.Err? {
      return;
    }
    TallyAndFinish(store, r.value.1, answers);
  }

  /** The guards of `score_round`, evaluated on the store. */
  method ScoreTarget(store: Store, jwt: Jwt, identity: Option<string>) returns (r: Result<(PrivateClaim, Round)>)
    ensures r == ScoreRoundTarget(store.Tables(), jwt, identity)
  {
    var identified := GetClaimFromIdentity(jwt, identity);
    if identified.Err? {
      return Err(identified.error);
    }
    var (claim, _) := identified.value;
    if claim.role != Owner {
      return Err(Forbidden);
    }
    var round := UnfinishedRound(store.Tables(), claim.gameId);
    if round.Err? {
      return Err(round.error);
    }
    r := Ok((claim, round.value));
  }

  /** The body of the `block` once the round is known: the tally, the score updates and the finish. */
  method TallyAndFinish(store: Store, round: Round, answers: seq<KeyAnswer>)
    requires store.Valid()
    modifies store
    ensures store.Valid()
    ensures store.serials == old(store.serials)
    ensures store.Tables() == ScoreEffect(old(store.Tables()), round.id, answers)
  {
    var t := store.Tables();
    var picks := PicksOfRound(t, round.id);
    var scores := TallyScores(picks, answers);
    forall u | u in scores
      ensures HasUser(t, u)
    {
      TalliedPlayersExist(t, round.id, answers, u);
    }
    AddScores(store, scores);
    RaisedIsScored(t.users, store.users, scores, picks, answers);
    store.Finish(round.id);
  }

  // ---------------------------------------------------------------- properties

  /** A scored round is finished, so scoring again with the same claim reaches another round or fails. */
  lemma ScoredRoundIsNotScoredAgain(t: Tables, jwt: Jwt, identity: Option<string>, answers: seq<KeyAnswer>)
    requires ScoreRoundTarget(t, jwt, identity).Ok?
    ensures var round := ScoreRoundTarget(t, jwt, identity).value.1;
      var again := ScoreRoundTarget(ScoreEffect(t, round.id, answers), jwt, identity);
      again.Ok? ==> again.value.1.id != round.id
  {
    var (claim, round) := ScoreRoundTarget(t, jwt, identity).value;
    FinishedRoundIsNotUnfinished(t, claim.gameId, round.id);
  }

  /** A player with no matching pick keeps their score; everything but the score stays as it was. */
  lemma UnmatchedPlayersKeepTheirScore(users: seq<User>, picks: seq<UserQuestion>, answers: seq<KeyAnswer>, i: int)
    requires 0 <= i < |users|
    ensures Scored(users, picks, answers)[i].id == users[i].id
    ensures Scored(users, picks, answers)[i].score >= users[i].score
    ensures Tally(picks, answers, users[i].id) == 0 ==> Scored(users, picks, answers)[i] == users[i]
  {
  }

  function SumScores(users: seq<User>): int
    decreases |users|
  {
    if users == [] then 0 else SumScores(users[..|users| - 1]) + users[|users| - 1].score
  }

  function SumTallies(users: seq<User>, picks: seq<UserQuestion>, answers: seq<KeyAnswer>): int
    decreases |users|
  {
    if users == [] then 0 else SumTallies(users[..|users| - 1], picks, answers) + Tally(picks, answers, users[|users| - 1].id)
  }

  /** The hits of one pick, credited to every user row whose id is the pick's player. */
  function Credited(users: seq<User>, p: UserQuestion, answers: seq<KeyAnswer>): int
    decreases |users|
  {
    if users == [] then 0
    else Credited(users[..|users| - 1], p, answers) + (if users[|users| - 1].id == p.userId then Hits(p, answers) else 0)
  }

  lemma {:induction false} ScoredSum(users: seq<User>, picks: seq<UserQuestion>, answers: seq<KeyAnswer>)
    ensures SumScores(Scored(users, picks, answers)) == SumScores(users) + SumTallies(users, picks, answers)
    decreases |users|
  {
    if users != [] {
      var init := users[..|users| - 1];
      assert Scored(users, picks, answers)[..|users| - 1] == Scored(init, picks, answers);
      ScoredSum(init, picks, answers);
    }
  }

  lemma {:induction false} SumTalliesAppendPick(users: seq<User>, picks: seq<UserQuestion>, p: UserQuestion, answers: seq<KeyAnswer>)
    ensures SumTallies(users, picks + [p], answers) == SumTallies(users, picks, answers) + Credited(users, p, answers)
    decreases |users|
  {
    assert (picks + [p])[..|picks|] == picks;
    if users != [] {
      SumTalliesAppendPick(users[..|users| - 1], picks, p, answers);
    }
  }

  lemma {:induction false} CreditedAbsent(users: seq<User>, p: UserQuestion, answers: seq<KeyAnswer>)
    requires forall i :: 0 <= i < |users| ==> users[i].id != p.userId
    ensures Credited(users, p, answers) == 0
    decreases |users|
  {
    if users != [] {
      CreditedAbsent(users[..|users| - 1], p, answers);
    }
  }

  /** With unique ids, a pick whose player is a user is credited exactly once. */
  lemma {:induction false} CreditedOnce(users: seq<User>, p: UserQuestion, answers: seq<KeyAnswer>)
    requires forall i, j :: 0 <= i < j < |users| ==> users[i].id < users[j].id
    requires UserIdIn(users, p.userId)
    ensures Credited(users, p, answers) == Hits(p, answers)
    decreases |users|
  {
    var init := users[..|users| - 1];
    if users[|users| - 1].id == p.userId {
      CreditedAbsent(init, p, answers);
    } else {
      var w :| 0 <= w < |users| && users[w].id == p.userId;
      assert init[w].id == p.userId;
      CreditedOnce(init, p, answers);
    }
  }

  lemma {:induction false} TalliesAreTotalHits(users: seq<User>, picks: seq<UserQuestion>, answers: seq<KeyAnswer>)
    requires forall i, j :: 0 <= i < j < |users| ==> users[i].id < users[j].id
    requires forall k :: 0 <= k < |picks| ==> UserIdIn(users, picks[k].userId)
    ensures SumTallies(users, picks, answers) == TotalHits(picks, answers)
    decreases |picks|
  {
    if picks == [] {
      SumTalliesNoPicks(users, answers);
    } else {
      var init := picks[..|picks| - 1];
      var p := picks[|picks| - 1];
      assert picks == init + [p];
      TalliesAreTotalHits(users, init, answers);
      SumTalliesAppendPick(users, init, p, answers);
      CreditedOnce(users, p, answers);
    }
  }

  lemma {:induction false} SumTalliesNoPicks(users: seq<User>, answers: seq<KeyAnswer>)
    ensures SumTallies(users, [], answers) == 0
    decreases |users|
  {
    if users != [] {
      SumTalliesNoPicks(users[..|users| - 1], answers);
    }
  }

  /** Scoring hands out exactly one point per matching (pick, answer) pair: the scores of a valid
      database rise in total by the number of matches over the round's picks. */
  lemma ScoringConservesPoints(t: Tables, roundId: int, answers: seq<KeyAnswer>)
    requires ValidTables(t)
    ensures SumScores(ScoreEffect(t, roundId, answers).users) == SumScores(t.users) + TotalHits(PicksOfRound(t, roundId), answers)
  {
    var picks := PicksOfRound(t, roundId);
    forall k | 0 <= k < |picks|
      ensures UserIdIn(t.users, picks[k].userId)
    {
      assert picks[k] in t.picks;
    }
    ScoredSum(t.users, picks, answers);
    TalliesAreTotalHits(t.users, picks, answers);
  }

  /** The worked example of the route's test: a player with score 4 picked "one" for two questions,
      the owner says "one" for the first and "two" for the second, and the player ends with 5. */
  lemma ScoreRoundExample(player: User, round: Round, q0: int, q1: int)
    requires player.score == 4 && q0 != q1
    ensures var picks := [UserQuestion(1, player.id, q0, round.id, "one"), UserQuestion(2, player.id, q1, round.id, "one")];
      var answers := [KeyAnswer("one", q0), KeyAnswer("two", q1)];
      Scored([player], picks, answers)[0].score == 5
  {
    var picks := [UserQuestion(1, player.id, q0, round.id, "one"), UserQuestion(2, player.id, q1, round.id, "one")];
    var answers := [KeyAnswer("one", q0), KeyAnswer("two", q1)];
    assert answers[..1] == [KeyAnswer("one", q0)];
    assert answers[..1][..0] == [];
    assert picks[..1] == [picks[0]];
    assert picks[..1][..0] == [];
    assert Hits(picks[0], answers[..1]) == 1;
    assert Hits(picks[0], answers) == 1;
    assert Hits(picks[1], answers[..1]) == 0;
    assert Hits(picks[1], answers) == 0;
    assert Tally(picks[..1], answers, player.id) == 1;
    assert Tally(picks, answers, player.id) == 1;
  }
}
