# sc-predictions-server, modelled in Dafny

sc-predictions-server is the back end of a prediction game played alongside a match. An *owner*
creates a game, which gets a six-character join code (the *slug*) and a list of questions.
*Players* join with the slug and a name. For each round:

- the owner opens the round;
- the players pick answers while it is open;
- the owner locks it;
- the owner then scores it by submitting the right answers. Every matching pick earns its player
  one point.

After each change, every WebSocket session that has authenticated for the game receives a JSON
push (the roster, the game status, the round status or the open round's picks).

The model covers six parts:

- **Errors**: the error enum, the HTTP response of each variant, and the conversions from database,
  pool, blocking and framework errors.
- **Auth**: claims (with the three-hour expiry), the bearer-token identity policy, and the claim
  and game-id checks. The JSON Web Token codec is a pair of functions supplied by the caller.
  `RoundTrips` is the hypothesis that a token the codec issued decodes to its claim.
- **Slug**: a game's id in base 36, padded with alphanumeric characters to six. The random
  characters are a parameter (`draws`).
- **Models / Db**: the six tables as sequences of rows in insertion order, with the queries of the
  `db` crate as functions over a snapshot (`Tables`). The `Store` class has one `seq` field per
  table and one serial counter per id column. Its methods are the inserts and in-place updates.
  They keep `Valid()`: ids below their serial counters and strictly increasing, and every foreign
  key held.
- **Handlers / Notify / Registry / WsSession**: the projections pushed to clients and the pushes
  themselves, plus the live-session registry. The registry is a class with the `sessions` and
  `game_to_sessions` maps and a ghost outbox of every attempted send. `WsSession` is the
  per-connection frame handler, with its heartbeat rule on an integer millisecond clock.
- **RoundRoutes / Scoring / GameRoutes**: the routes that create, lock, pick for and score a round,
  and that join and create a game. Each route has three layers:
  - a guard chain, as a function;
  - a database part, as a method proved against it;
  - a thin top method that adds the pushes.

Serde serialisation, JWT signing and mailbox delivery are the only functions the model does not
look into. They are passed in as values: `Jwt` for signing and `Io` for serialisation and delivery.

In these places the code does less than one might expect, and the model follows the code:

- `Auth` on the registry appends the session id to the game's list again on every call; nothing
  de-duplicates it.
- Creating a round does not check for an open round that already exists, so a game can have
  several open rounds.
- `User::create` writes the new token into the `session_id` of *every* user row, because its
  update has no filter. It then returns the first row of that update.
- In the game status, `unfinished_round` is true for a round that is not finished, whether or not
  it is locked.

## Model

| member | source | states |
|---|---|---|
| Errors.ResponseOfMessage | errors/src/lib.rs:67-81 | a single message becomes an error body whose list holds exactly that message |
| Errors.ResponseOfList | errors/src/lib.rs:83-87 | a list of messages becomes an error body with that list, unchanged |
| Errors.ErrorResponseOf | errors/src/lib.rs:37-64 | status 422 exactly for ValidationError and UnprocessableEntity, 400 exactly for BadRequest, 404 exactly for NotFound, 403 exactly for Forbidden, 500 for every other variant; a validation error carries its bare list, the other client errors their message (Forbidden the word "Forbidden"), and server errors only "Internal Server Error" |
| Errors.ServerErrorsAreIndistinguishable | errors/src/lib.rs:58-62 | any two server-side errors, Unauthorized included, give the same 500 response, so nothing about them reaches the client |
| Errors.FromDbError | errors/src/lib.rs:90-105 | a unique violation becomes BadRequest with the details, or the message when there are none; not-found is exactly NotFound("Record not found"); everything else is InternalServerError("Unknown database error") |
| Errors.DbErrorStatus | errors/src/lib.rs:90-105 | a database error reaches the client as 400, 404 or 500, and as 400 exactly when it is a unique violation |
| Errors.FromPoolError | errors/src/lib.rs:109-113 | a pool error becomes PoolError with the pool's text |
| Errors.FromBlockingError | errors/src/lib.rs:115-120 | a blocking error becomes BlockingError("Thread blocking error"), whatever its detail |
| Errors.FromActixError | errors/src/lib.rs:122-126 | a framework error becomes InternalServerError with its text |
| Errors.InfrastructureErrorsAreServerErrors | errors/src/lib.rs:109-126 | pool, blocking and framework errors all reach the client as the same generic 500 |
| Text.NatToRadix | src/utils/mod.rs:7-10 | the base-36 form has at least one digit, uses only digits valid in the base (upper-case letters) and has no leading zero |
| Text.RadixRoundTrip | src/utils/mod.rs:7-10 | reading the base-36 form back gives the number |
| Text.RadixInjective | src/utils/mod.rs:7-10 | distinct numbers have distinct base-36 forms |
| Text.IntToDecimal | server/src/routes/rounds/save_picks.rs:57-63 | `{}` of an integer is non-empty and starts with '-' exactly for a negative number |
| Text.DecimalRoundTrip | server/src/routes/rounds/save_picks.rs:72-75 | the decimal text of an integer reads back as that integer, negative ones included |
| Text.Trim | server/src/websocket/mod.rs:105 | the trimmed text is a slice of the input, everything cut off on either side is whitespace, and it neither starts nor ends with whitespace |
| Text.TrimAround | server/src/websocket/mod.rs:105 | trimming whitespace wrapped around a core that starts and ends with non-whitespace gives exactly the core |
| Text.SplitAtFirstSpace | server/src/websocket/mod.rs:108 | `splitn(2, ' ')` gives one part exactly when there is no space (the whole text), otherwise a first part without a space and the rest, joined by that space back into the input |
| Text.RemoveAll | auth/src/lib.rs:65 | removing a pattern never lengthens the text |
| Text.RemoveAllAbsent | auth/src/lib.rs:65 | text without an occurrence of the pattern is unchanged |
| Text.RemoveAllLeading | auth/src/lib.rs:65 | a leading occurrence of the pattern is removed and a rest without the pattern is kept as it is |
| Text.LowerHex | server/src/websocket/mod.rs:122 | the hexadecimal digits of a `\u{...}` escape are non-empty and lower-case |
| Text.HexRoundTrip | server/src/websocket/mod.rs:122 | reading the lower-case hexadecimal form back gives the number |
| Text.EscapeChar | server/src/websocket/mod.rs:122 | whatever the character, its escape holds only characters `{:?}` leaves as they are: no control, unprintable or combining character and no raw newline, carriage return, tab or NUL |
| Text.Escaped | server/src/websocket/mod.rs:122 | the escaped body of a string holds no unprintable character |
| Text.DebugString | server/src/websocket/mod.rs:122 | `{:?}` of a string is quoted at both ends and holds no unprintable character between the quotes |
| Text.DebugStringOfControl | server/src/websocket/mod.rs:122 | "/x" followed by U+0001 is written `"/x\u{1}"` |
| Text.EscapeRoundTrip | server/src/websocket/mod.rs:122 | the escaped body of `{:?}` reads back as the original string |
| Text.DebugStringInjective | server/src/websocket/mod.rs:122 | two strings with the same `{:?}` form are equal, so the unknown-command reply identifies the command |
| Validation.RequiredMessage | src/validate.rs:11 | the default message of a failed field is the field name followed by " is required" |
| Validation.Messages | src/validate.rs:6-19 | there is at most one message per rule, there are none exactly when every rule holds, and a text is a message exactly when it is the default message of a failed rule |
| Validation.Validate | src/validate.rs:21-30 | validation succeeds exactly when every rule holds, and otherwise fails with ValidationError carrying the non-empty collected messages |
| Auth.NewClaim | auth/src/lib.rs:31-39 | a new claim copies id, name, game and role and expires exactly three hours (10800 s) after now |
| Auth.CreateJwt | auth/src/lib.rs:82-86 | signing succeeds exactly when the codec does and returns its token, and otherwise fails with CannotEncodeJwtToken and the codec's reason |
| Auth.DecodeJwt | auth/src/lib.rs:88-94 | decoding succeeds exactly when the codec does and returns its claim, and otherwise fails with CannotDecodeJwtToken and the codec's reason |
| Auth.DecodeCreated | auth/src/lib.rs:129-134 | given a round-tripping codec, decoding a freshly created token yields the original claim |
| Auth.FromRequest | auth/src/lib.rs:58-70 | no header gives no identity; a header gives an identity exactly when it is readable; the identity is no longer than the header |
| Auth.FromRequestYieldsToken | auth/src/lib.rs:62-66 | a readable token without "Bearer " in it is recovered with or without a "Bearer " prefix |
| Auth.GetClaimFromIdentity | auth/src/lib.rs:100-106 | no identity fails Unauthorized; with an identity the result is the decoded claim together with the unchanged raw token, and a decode error propagates |
| Auth.IdentityMatchesGameId | auth/src/lib.rs:108-115 | succeeds exactly when the claim decodes and names the game; a decode failure propagates, and a decoded claim for another game gives Forbidden |
| Auth.IssuedTokenIdentifies | auth/src/lib.rs:100-115 | a token issued for a claim is seen by the identity check as exactly that claim and passes the game check for the claim's game |
| Slug.CreateSlugFromId | src/utils/mod.rs:6-25 | the slug starts with the id in base 36, is exactly six characters when that form is shorter, is that form unchanged otherwise, is never shorter than six and is alphanumeric |
| Slug.SlugEncodesId | src/utils/mod.rs:7-10 | the id can be read back from the start of its slug |
| Slug.LongSlugsAreDistinct | src/utils/mod.rs:24 | ids with six or more base-36 digits get distinct slugs, whatever the random padding |
| Slug.SlugOfTen | src/utils/mod.rs:32-36 | id 10 gets a six-character slug starting with 'A' |
| Slug.SlugOfLargeId | src/utils/mod.rs:39-42 | id 439483745 gets "79NNTT" |
| Slug.SerialSlugsHaveSixCharacters | src/utils/mod.rs:11-24 | every id a 32-bit serial column can hand out gets a slug of exactly six characters |
| Models.FindGameById | db/src/models/game.rs:41-47 | finds a game exactly when one has the id, returns a game with that id, and otherwise fails NotFound("Record not found") |
| Models.FindGameBySlug | db/src/models/game.rs:49-55 | finds a game exactly when one has the slug, returns a game with that slug, and otherwise fails NotFound |
| Models.ActiveRound | db/src/models/round.rs:49-58 | finds a round exactly when the game has an unlocked one, returns an unlocked round of the game, and otherwise fails NotFound |
| Models.UnfinishedRound | db/src/models/round.rs:71-86 | finds a round exactly when the game has a locked unfinished one, returns such a round, and otherwise fails NotFound |
| Models.LatestRound | db/src/models/round.rs:60-69 | finds a round exactly when the game has one, returns the game's most recently created round, and otherwise fails NotFound |
| Models.RoundsOfGame | server/src/handlers/get_game_status.rs:23 | the rounds of a game are exactly the table's rounds with that game id |
| Models.UsersOfGame | db/src/models/user.rs:62-74 | the roster is exactly the game's users projected to id, name, game and score |
| Models.UserByGameAndName | db/src/models/user.rs:76-89 | finds a user exactly when one matches both game and name, returns such a user, and otherwise fails NotFound |
| Models.UserById | db/src/models/user.rs:94-97 | finds a user exactly when one has the id, returns the first row with it, and otherwise fails NotFound |
| Models.PicksOfRoundAndUser | db/src/models/user_question.rs:54-70 | the result is exactly the picks matching both round and user, and empty when there are none |
| Models.PicksOfRound | server/src/routes/rounds/score_round.rs:44 | the result is exactly the picks of the round |
| Models.QuestionOfLink | server/src/handlers/get_round_details.rs:28 | a link resolves exactly when the catalogue has its question, and then to that question's id and body |
| Models.LinksOfGame | server/src/handlers/get_round_details.rs:28 | the links of a game are exactly the `game_questions` rows with that game id |
| Models.QuestionsOfGame | server/src/handlers/get_round_details.rs:28 | every listed question is linked to the game and exists in the catalogue |
| Models.QuestionsOfGameFollowsLinks | server/src/handlers/get_round_details.rs:28 | in a valid database the game's question list has one entry per link of the game, in link order, each the linked catalogue question |
| Models.LockProperties | db/src/models/round.rs:88-96 | locking sets `locked` on the rows with that id and changes nothing else, and locking twice is locking once |
| Models.FinishProperties | db/src/models/round.rs:98-106 | finishing sets `finished` on the rows with that id, leaves `locked` and every other row alone, and is idempotent |
| Models.LockingMovesActiveRound | db/src/models/round.rs:49-96 | after the open round is locked, the open-round lookup succeeds exactly when another unlocked round of the game remains, and never returns the locked one |
| Models.FinishedRoundIsNotUnfinished | db/src/models/round.rs:71-106 | a finished round is no longer a locked unfinished round of any game |
| Db.Store.constructor | seeds/src/main.rs:12-22 | a fresh database holds only the seeded question catalogue, with every serial at 1, and is valid |
| Db.Store.CreateRound | db/src/models/round.rs:32-47 | for an existing game, appends one open round with the next serial id and the two names, changing nothing else; otherwise fails with the foreign-key error; the store stays valid |
| Db.Store.Lock | db/src/models/round.rs:88-96 | the rounds become the locked rewrite, and the other tables and the serials are unchanged |
| Db.Store.Finish | db/src/models/round.rs:98-106 | the rounds become the finished rewrite, and the other tables and the serials are unchanged |
| Db.Store.AddScore | db/src/models/user.rs:91-104 | for an existing user, writes that user's old score plus the amount into the rows with its id and returns the updated row; otherwise fails NotFound with nothing changed |
| Db.Store.CreateUser | db/src/models/user.rs:38-60 | for an existing game, appends the user with score 0; if the Player token cannot be signed it fails with the row still in place, otherwise every user row gets the token as session id and the first row is returned |
| Db.Store.CreatePick | db/src/models/user_question.rs:35-52 | when user, question and round exist, appends exactly one pick with the given fields and the next serial id, leaving earlier picks alone; otherwise fails with the foreign-key error |
| Db.Store.CreateGame | db/src/models/game.rs:21-39 | appends a game whose slug is derived from its serial id and whose creator is the token of an Owner claim naming that id as subject and game; when signing fails the game stays without slug or creator and the error is returned |
| Db.Store.CreateGameQuestion | server/src/routes/games/create.rs:27 | when game and question exist, appends one link with the next serial id; otherwise fails with the foreign-key error and nothing changes |
| Db.Store.Rollback | server/src/routes/games/create.rs:23-31 | rolling back restores the tables to the snapshot, while the serials keep the values they consumed |
| Db.WithScoreFirstMatch | db/src/models/user.rs:94-101 | after a score update, looking the user up again gives the old row with the new score |
| Handlers.OpenFoldFindsUnlocked | server/src/handlers/get_game_status.rs:32-38 | the `open_round` fold is true exactly when it started true or some round is unlocked |
| Handlers.UnfinishedFoldFindsUnfinished | server/src/handlers/get_game_status.rs:39-44 | the `unfinished_round` fold is true exactly when it started true or some round is unfinished |
| Handlers.GameStatus | server/src/handlers/get_game_status.rs:17-46 | a missing game fails NotFound; otherwise the slug is the game's, or "" when unset; `open_round` holds exactly when some round of the game is unlocked, and `unfinished_round` exactly when some round of the game is unfinished, locked or not |
| Handlers.NoRoundsNoFlags | server/src/handlers/get_game_status.rs:32-44 | a game without rounds reports neither an open nor an unfinished round |
| Handlers.StatusIgnoresOtherGames | server/src/handlers/get_game_status.rs:23 | adding another game's round leaves a game's status unchanged |
| Handlers.RoundStatus | server/src/handlers/get_round_details.rs:20-48 | fails NotFound without a round; otherwise describes the latest round: the player names in order, its id and flags, the game's questions, and `picks_chosen` exactly when the caller is a Player with a pick in that round |
| Handlers.RoundPicks | server/src/handlers/get_round_picks.rs:15-31 | fails NotFound without an unlocked round; otherwise holds exactly the picks of that round, and `locked` is false |
| Registry.Fanout | server/src/websocket/server.rs:59-76 | a broadcast makes at most one send per listed id |
| Registry.FanoutSendsOnlyToLiveListedSessions | server/src/websocket/server.rs:60-69 | every send carries the serialised text and goes to a listed id that still has a session, through that session's mailbox, recording whether the mailbox took it |
| Registry.FanoutWithoutTextIsEmpty | server/src/websocket/server.rs:63 | when serialisation fails nothing is sent |
| Registry.FanoutSendsOncePerListing | server/src/websocket/server.rs:61-69 | a live session receives one send per time its id is listed; a failed delivery stops nothing, and nothing is de-duplicated |
| Registry.Bind | server/src/websocket/server.rs:104-113 | binding creates the game's list when it is missing, appends the id to it, and leaves every other game's list alone |
| Registry.BindTwiceListsTwice | server/src/websocket/server.rs:113 | binding the same session twice lists it twice more |
| Registry.DoubleBindMeansDoubleDelivery | server/src/websocket/server.rs:104-120 | a live session not yet listed for a game and then authenticated twice for it receives each later broadcast twice |
| Registry.Server.constructor | server/src/websocket/server.rs:51-57 | a new registry has no sessions, no game lists and no sends |
| Registry.Server.Connect | server/src/websocket/server.rs:135-140 | the id maps to a session with the mailbox and no token, overwriting any earlier entry; the game lists are unchanged |
| Registry.Server.Disconnect | server/src/websocket/server.rs:149-155 | only the id's session is removed; every game list, stale ids included, is unchanged |
| Registry.Server.SendToGameSessions | server/src/websocket/server.rs:59-76 | the sends are exactly the fan-out over the game's list, none for a game without a list; the maps are unchanged |
| Registry.Server.HandleMessageToClient | server/src/websocket/server.rs:157-162 | the whole serialised message is fanned out to its game's sessions |
| Registry.Server.Auth | server/src/websocket/server.rs:95-125 | an undecodable token or an unknown session changes nothing and answers Ok; otherwise the session records the token and is appended to the claim's game list, then a pool failure is returned with no roster sent, and otherwise the game's roster, if it serialises, is fanned out |
| Registry.NewcomerReceivesRoster | server/src/websocket/server.rs:109-121 | after its binding, the newcomer is among the recipients of the roster broadcast |
| Registry.DisconnectedSessionIsSkipped | server/src/websocket/server.rs:152-154 | a disconnected session stays listed but receives nothing from any broadcast |
| Notify.Notification | server/src/websocket/client_messages.rs:15-24 | a push carries a message exactly when the projection succeeded and serialises, and that message has the path, payload and game |
| Notify.GameStatusNoteForExistingGame | server/src/websocket/client_messages.rs:10-25 | the game-status push for an existing game carries its status on `/game-status` |
| Notify.NoGameNoStatus | server/src/websocket/client_messages.rs:23 | a game-status push for a missing game sends nothing, the error being only logged |
| Notify.Publish | server/src/routes/games/join.rs:47-50 | handing a message to the registry adds exactly its fan-out to the sends and changes neither map |
| Notify.SendGameStatus | server/src/websocket/client_messages.rs:10-25 | the sends grow by the fan-out of the game-status message |
| Notify.SendRoundStatus | server/src/websocket/client_messages.rs:27-42 | the sends grow by the fan-out of the round-status message |
| WsSession.Classify | server/src/websocket/mod.rs:104-124 | after trimming, text not starting with '/' is ignored, "/auth " plus an argument is the auth command with exactly that argument, a bare "/auth" is singled out, and any other command is answered "unknown command" with the quoted text |
| WsSession.AuthWordLemma | server/src/websocket/mod.rs:108-110 | the first word of the split is "/auth" with a rest exactly when the text starts with "/auth ", and "/auth" alone exactly when the text is "/auth" |
| WsSession.TimeoutPersists | server/src/websocket/mod.rs:46-59 | once a client has timed out it stays timed out until heard from again |
| WsSession.TimeoutBoundary | server/src/websocket/mod.rs:48 | a client survives a check exactly 30 s after its last sign of life and fails the first check after that |
| WsSession.WebSocketSession.constructor | server/src/websocket/mod.rs:37-44 | a new session has the fresh id, `hb` set to now, empty queues, and is not stopped |
| WsSession.WebSocketSession.Started | server/src/websocket/mod.rs:65-83 | starting sends Connect with the session's id and stops exactly when the registry cannot be reached |
| WsSession.WebSocketSession.HeartbeatTick | server/src/websocket/mod.rs:46-59 | when more than 30 s have passed, strictly, it sends Disconnect, stops and does not ping; otherwise it only pings |
| WsSession.WebSocketSession.Forward | server/src/websocket/mod.rs:86-92 | text from the registry goes to the client unchanged as one text frame |
| WsSession.WebSocketSession.Handle | server/src/websocket/mod.rs:94-142 | Ping and Pong refresh `hb` and a Ping is answered with a Pong carrying the same payload; text is acted on as classified, a parsed `/auth` sending exactly one Auth and an unparseable one only the reply "Invalid request params", and a bare "/auth" panics; Binary is echoed; Close sends Disconnect, closes and stops; protocol errors and other frames stop without Disconnect |
| WsSession.PlainTextIsIgnored | server/src/websocket/mod.rs:105-107 | text that does not start with '/' after trimming produces nothing |
| WsSession.UnknownCommandIsEscaped | server/src/websocket/mod.rs:104-122 | the unknown-command reply to "/x" followed by U+0001 carries the escape `\u{1}`, not the raw control character |
| WsSession.AuthCommandCarriesArgument | server/src/websocket/mod.rs:104-121 | "/auth " and an argument, with any surrounding whitespace, is the auth command carrying exactly that argument |
| RoundRoutes.MissingIsForbidden | server/src/routes/rounds/create.rs:47-51 | a missing game turns NotFound into Forbidden, and success and every other error pass through |
| RoundRoutes.CreateRoundGuard | server/src/routes/rounds/create.rs:35-59 | an empty name fails validation before anything else, then a claim failure propagates; it passes exactly when both names are given, the claim is an Owner's, the claim's game exists and its creator equals the caller's raw token, and otherwise fails Forbidden |
| RoundRoutes.CreateRoundGuardIgnoresRounds | server/src/routes/rounds/create.rs:42-59 | the guard never looks at the rounds, so an open round does not stop another from being created |
| RoundRoutes.CreatedRoundIsLatestAndOpen | server/src/routes/rounds/create.rs:61-72 | a newly created round is the game's latest round, and the game then reports an open and an unfinished round |
| RoundRoutes.TwoCreationsLeaveTwoOpenRounds | server/src/routes/rounds/create.rs:61-72 | two creations in a row leave the game with two open rounds |
| RoundRoutes.CreateRound | server/src/routes/rounds/create.rs:29-82 | a guard failure changes nothing and pushes nothing; otherwise one open round with the caller's game, the two names and the next id is appended and returned, and the game status and then the round status are pushed |
| RoundRoutes.AddRound | server/src/routes/rounds/create.rs:35-72 | the guard, then the insert: on success the new round is appended for the claim's game |
| RoundRoutes.CreateRoundTarget | server/src/routes/rounds/create.rs:35-59 | the step-by-step checks decide exactly what the guard function decides |
| RoundRoutes.LockRoundTarget | server/src/routes/rounds/lock_round.rs:19-26 | a claim failure propagates, a non-Owner is Forbidden, and an Owner gets the game's open round or NotFound |
| RoundRoutes.LockRound | server/src/routes/rounds/lock_round.rs:14-38 | a guard failure changes nothing and pushes nothing; otherwise the open round is locked and the game status then the round status are pushed |
| RoundRoutes.LockOpenRound | server/src/routes/rounds/lock_round.rs:19-30 | returns what the guard decides, and on success only the open round's row is locked |
| RoundRoutes.LockedRoundIsNoLongerOpen | server/src/routes/rounds/lock_round.rs:26-27 | after the lock the locked round is no longer the open round, and the game status reports an open round exactly when another unlocked round of the game remains |
| RoundRoutes.HasNotPicked | server/src/routes/rounds/save_picks.rs:35-48 | passes exactly when the user has no pick in the round, and otherwise fails BadRequest "User has already chosen picks for this round" |
| RoundRoutes.FirstMissing | server/src/routes/rounds/save_picks.rs:70-77 | finds the first answer, in input order, whose id is not a question id, or none when every id is one |
| RoundRoutes.SelectionCheckMeaning | server/src/routes/rounds/save_picks.rs:50-80 | a count mismatch fails "Received n answers, expected m" first; with equal counts the check passes exactly when every answer names a game question, and otherwise fails "Invalid question id: id" for the first answer that does not |
| RoundRoutes.RepeatedIdPasses | server/src/routes/rounds/save_picks.rs:65-77 | membership is the only per-answer check: for any question list, as many answers as questions that all name one of its questions pass, however often the id repeats |
| RoundRoutes.ValidateSelectedQuestions | server/src/routes/rounds/save_picks.rs:50-80 | decides the selection check against the game's question list |
| RoundRoutes.CheckSelection | server/src/routes/rounds/save_picks.rs:57-79 | the id-set loop and the answer scan decide exactly the selection check |
| RoundRoutes.SavePicksCheckOrder | server/src/routes/rounds/save_picks.rs:88-99 | the checks run in this order: role (Forbidden), open round (NotFound), an earlier pick (rejected whatever the answers are), and only then the answers |
| RoundRoutes.NewPicks | server/src/routes/rounds/save_picks.rs:101-103 | one pick per answer, in answer order, with the caller, the round, the answer's question and value, and consecutive ids |
| RoundRoutes.SaveAnswers | server/src/routes/rounds/save_picks.rs:94-109 | result, tables and serials are exactly the route's effect, and on success the caller's game is returned |
| RoundRoutes.SavePicks | server/src/routes/rounds/save_picks.rs:82-124 | result, tables and serials are exactly the route's effect: nothing changes on a failed check, otherwise one pick per answer is added; on success the open round's picks are pushed on `/picks` |
| RoundRoutes.SavePicksTarget | server/src/routes/rounds/save_picks.rs:88-99 | the step-by-step checks decide exactly what the guard function decides |
| RoundRoutes.GuardedPicksAreInsertable | server/src/routes/rounds/save_picks.rs:97-103 | a request that passes the checks names an existing round and only existing questions |
| RoundRoutes.InsertAnswers | server/src/routes/rounds/save_picks.rs:101-103 | the inserts produce exactly the insert effect |
| RoundRoutes.InsertPicks | server/src/routes/rounds/save_picks.rs:101-103 | with a user row, exactly the new picks are appended in answer order; without one, the first insert fails with the picks unchanged |
| RoundRoutes.SecondSaveIsRefused | server/src/routes/rounds/save_picks.rs:35-48 | after a successful save with at least one answer, the round is still open and the same caller's next save fails "User has already chosen picks for this round" |
| RoundRoutes.NewPicksBelongToCallerAndRound | server/src/routes/rounds/save_picks.rs:101-103 | the earlier picks are kept and every added pick carries the caller and the round |
| Scoring.TallyScores | server/src/routes/rounds/score_round.rs:46-58 | the map holds exactly the players with a positive tally, each mapped to that tally: the number of (pick of theirs, submitted answer) pairs with equal question id and equal answer |
| Scoring.TallyNeedsPick | server/src/routes/rounds/score_round.rs:48-55 | only a player with a pick in the list can have a positive tally |
| Scoring.TallyAppendAnswers | server/src/routes/rounds/score_round.rs:48-58 | a tally is additive in the submitted answers |
| Scoring.RepeatedAnswersCountTwice | server/src/routes/rounds/score_round.rs:49-56 | duplicates count additively: submitting every answer twice doubles every tally |
| Scoring.AddScores | server/src/routes/rounds/score_round.rs:60-62 | in whatever order the map is visited, every user's score rises by its map entry and nothing else in the database changes |
| Scoring.AddNextScore | server/src/routes/rounds/score_round.rs:60-62 | one iteration adds the entry of one key not yet visited |
| Scoring.AddKeyScore | server/src/routes/rounds/score_round.rs:61 | one `add_score` call adds the key's entry to that user's rows only |
| Scoring.RaisedIsScored | server/src/routes/rounds/score_round.rs:46-62 | once every key has been visited, the users are exactly the old users, each with their tally added |
| Scoring.ScoreRoundTarget | server/src/routes/rounds/score_round.rs:35-43 | a claim failure propagates, a non-Owner is Forbidden, and an Owner gets the game's locked unfinished round or NotFound |
| Scoring.TalliedPlayersExist | server/src/routes/rounds/score_round.rs:60-62 | every player with a positive tally is a user, by the picks' foreign key, so no `add_score` fails |
| Scoring.ScoreRound | server/src/routes/rounds/score_round.rs:29-76 | a guard failure changes nothing and pushes nothing; otherwise every score rises by its tally over the round's picks, the round is finished, and the game status then the round status are pushed |
| Scoring.ScoreAndFinish | server/src/routes/rounds/score_round.rs:42-68 | returns what the guard decides; on success the tables become the scored tables with the round finished |
| Scoring.ScoreTarget | server/src/routes/rounds/score_round.rs:35-43 | the step-by-step checks decide exactly what the guard function decides |
| Scoring.TallyAndFinish | server/src/routes/rounds/score_round.rs:43-66 | the tally, the score updates and the finish leave exactly the scored tables with the round finished |
| Scoring.ScoredRoundIsNotScoredAgain | server/src/routes/rounds/score_round.rs:43-64 | after scoring, the same caller cannot score the same round again |
| Scoring.UnmatchedPlayersKeepTheirScore | server/src/routes/rounds/score_round.rs:60-62 | scoring keeps every user's id, never lowers a score, and leaves a user without a matching pick exactly as they were |
| Scoring.TalliesAreTotalHits | server/src/routes/rounds/score_round.rs:46-62 | with unique user ids and every picker a user, the tallies of all users add up to the number of matching pairs |
| Scoring.ScoringConservesPoints | server/src/routes/rounds/score_round.rs:46-62 | the scores of a valid database rise in total by exactly the number of matching (pick, answer) pairs of the round |
| Scoring.ScoreRoundExample | server/src/routes/rounds/score_round.rs:140-272 | a player with score 4 who picked "one" twice, against the answers "one" and "two", ends with 5 |
| GameRoutes.JoinTarget | server/src/routes/games/join.rs:20-40 | a short name or a slug that is not six characters fails validation first, an unknown slug fails NotFound, and it passes exactly when the name is still free in the slug's game, failing "Username is taken" otherwise |
| GameRoutes.Join | server/src/routes/games/join.rs:28-53 | a guard failure changes nothing and pushes nothing; otherwise one user with the name, the game and score 0 is added; a signing failure is returned with the row left in place, and otherwise every row gets the token, the first row is returned and the game's roster is pushed on `/players` |
| GameRoutes.JoinGame | server/src/routes/games/join.rs:36-45 | the guards, then the user insert, returning the new row with the game's id |
| GameRoutes.SecondJoinIsRefused | server/src/routes/games/join.rs:38-41 | once a name has joined a game, joining it again with that name fails "Username is taken" |
| GameRoutes.JoinedPlayerIsInRoster | server/src/routes/games/join.rs:41-50 | the roster pushed after a join lists the new player with score 0 |
| GameRoutes.Links | server/src/routes/games/create.rs:26-28 | one link per listed question id, in list order, with consecutive ids |
| GameRoutes.CreateOutcome | server/src/routes/games/create.rs:19-32 | the creation succeeds exactly when the Owner token can be signed and every listed question exists, and then returns the game with the next id and the slug of that id |
| GameRoutes.CreateDbRecords | server/src/routes/games/create.rs:19-32 | returns the outcome above; on failure the tables are as before (the transaction rolls back), and on success exactly the game and one link per listed id, in list order, are added |
| GameRoutes.LinkQuestions | server/src/routes/games/create.rs:26-28 | succeeds exactly when every listed question exists, then appending exactly the links; otherwise fails with the foreign-key error |
| GameRoutes.LinkOne | server/src/routes/games/create.rs:27 | one link insert succeeds exactly when its question exists and appends the next link of the list |
| GameRoutes.CreatorPassesRoundGuard | db/src/models/game.rs:27-36 | with a round-tripping codec, the token stored as a new game's creator passes the round-creation guard for that game with any two non-empty player names |
| GameRoutes.CreatedGameSlugPassesJoinValidation | server/src/routes/games/join.rs:20-26 | for a game with a 32-bit serial id, its slug passes the join request's six-character rule and finds a game, so a join with a name of three or more characters can only fail because the name is taken |

## Left out

- The actor and async plumbing (`Addr`, `do_send`, `block`, `await`, contexts, `ws::start`) is left out, and so is concurrency. Each message and request is handled as one sequential call. Handing a message to the registry is modelled as the registry handling it at once.
- The connection pool is not modelled. A `get_conn` failure in a route, the panic of join's and `create_db_records`'s `get_conn(...).unwrap()`, and a cancelled `block` (the blocking-pool error) are all outside the model. `Registry.Server.Auth` is the exception: there the pool failure is a parameter.
- Database failures other than not-found rows and foreign-key violations are not modelled, such as a lost connection or a failing update statement. The queries are total functions over the tables.
- Registry.Server.Auth: the roster query is modelled as a query that cannot fail, so its `?` error path is missing.
- Serde serialisation (`to_value`, `to_string`) and mailbox delivery (`do_send`) are caller-supplied functions (`Io`). JSON request parsing, including the `/auth` argument, is one too (`parseAuth`).
- JWT signing and verification are caller-supplied functions (`Jwt`). This covers the `JWT_KEY` lookup, the signature and the expiry check. `RoundTrips` is a hypothesis of the lemmas that need it, not an axiom.
- Wall-clock time is a parameter. `Utc::now` is in seconds and `Instant` is an integer millisecond clock. The scheduling of the five-second heartbeat interval is left to the caller of `HeartbeatTick`.
- The random padding of the slug is a parameter (`draws`), constrained only to alphanumeric characters.
- Scoring.AddScores: `HashMap` iteration order is a nondeterministic choice. The contract holds for every order.
- Db.Store.AddScore: scores are unbounded integers. The `i32` overflow of the Rust addition `score + amount` is not modelled. In a debug build that overflow panics, and in a release build it wraps around. Postgres only receives the resulting value.
- Scoring.TallyScores: the count is unbounded, while the source's `i32` would overflow after 2^31 matches.
- Slug.CreateSlugFromId: takes a natural number, because the serial never hands out a negative id. The `radix` crate's handling of a minus sign is not modelled.
- Validation.Messages: returns the messages in rule order, whereas the validator crate returns field errors in `HashMap` order. A custom per-rule message is not modelled, because none of the modelled requests defines one.
- Row order is insertion order, and "latest by `created_at`" is the last inserted row.
- `GameQuestion::create`, `GameQuestion::get_questions_by_game_id` and `UserQuestion::find_by_round` are not part of this model's source. They are modelled as:
  - an insert checked against the game and question keys;
  - a join of the game's links with the catalogue, in link order;
  - a round filter.
- The transaction of `create_db_records` is modelled as a snapshot of the tables restored on failure. Serial values consumed by a rolled-back insert stay consumed, as with Postgres sequences.
- The routes that only pass a projection through are not modelled separately: `rounds::status`, `games::status`, `rounds::get_round_picks`, `questions::get_all`, and `games::create`, which wraps `create_db_records`. The same goes for the authentication middleware, the route table, the mains, the seeds (except as the initial catalogue) and the test helpers.
- The legacy `src/` tree is left out, except `src/utils/mod.rs` (the slug) and `src/validate.rs` (the message format). The echo-only `server/src/websocket.rs` is left out too.
- `server/src/routes/mod.rs` registers no `/score` route, yet the route's tests post to it. The model treats `score_round` as reachable.
- Notify.SendRoundStatus: `client_messages::send_round_status` takes three arguments and calls `get_round_status` with two, while the routes call it with five. The model follows the routes and the handler's definition: role, user id and game are passed through.
- Registry.Server.Auth: a failure of `to_string` is modelled as no text, so nothing is sent. `send_msg_to_game_sessions`'s warning for a game without a list is only logging.
- Text.EscapeChar: only part of Rust's table of characters written as `\u{hex}` is reproduced. It covers the C0 controls without a short escape, DEL and the C1 controls, the soft hyphen, the combining diacritical marks (U+0300-U+036F), U+200B-U+200F, U+2028-U+202E, U+2060-U+2064 and U+FEFF. Any other character that Rust's full printable or Grapheme_Extend tables would escape is written as itself. The Unicode tables are not included.
- Handlers.RoundPicks: a pick is the `UserQuestion` row of the model. `UserAnswer`, the row type `get_round_picks` answers with, is not part of this model's source, so its exact columns are not modelled.
- Logging (`error!`, `warn!`, `info!`) is left out.
