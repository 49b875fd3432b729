# GuessingGame core, modelled in Dafny

GuessingGame is an iOS party game for several players. One phone creates a session under a six-character code, and the other players join with that code. The host then starts a round. In a round, one player (the *answerer*) picks a category and a secret word, and the others (the *guessers*) take turns. On their turn a guesser asks a yes/no question, which the answerer answers, or guesses the word outright. All shared state is one session document in a Firebase realtime database. Every phone listens to that document and writes into it.

This project models the game's core:

- the value types:
  - the user profile;
  - the session and its players;
  - the round's state, with its questions, reactions, roles and phases.

  Each value type has its dictionary encoding and decoding.
- the turn rules on the round's state: next turn, adding and answering questions, checking a guess.
- the lobby controller (`GameLobbyViewModel`): create, join, start, leave, and the session listener.
- the gameplay controller (`GameplayViewModel`): the guarded game actions, the listener and the computed properties that the screen shows.
- the join screen's code normalisation (`JoinGameViewModel`).
- error-to-message mapping (`ErrorHandler`, `AppError`).
- sign-in (`AuthenticationViewModel`): rejection-sampled nonce generation, the profile decision after sign-in, choosing an avatar, and signing out.

How the model is built:

- Values become datatypes and functions. A value type's `mutating` method becomes a function from the old value to the new one.
- The view models become classes whose methods state their new fields and the writes they issue.
- The database becomes a `Store` class. It holds a tree of values addressed by key paths and a log of every write issued.
- A write takes effect only when the `failure` parameter, which stands for the error reported to its completion handler, is none. Completion handlers and listener callbacks run inline.
- Randomness is passed in by the caller:
  - `shuffled()` and `randomElement()` take sequences of draws, and a missing draw reads as 0;
  - `UUID()` is a function from a counter to a string;
  - `SecRandomCopyBytes` supplies blocks of bytes;
  - `Date()` is an integer instant.
- The order in which a dictionary yields its keys is unspecified. The methods that iterate over a dictionary return that order as a ghost result. Their contracts hold for every order.

Modules:

- `Wrappers`, `Ascii`: helpers for `Option` and strings.
- `KeyValue`, `DocumentStore`: the stored dictionary tree; set and remove at a path.
- `Randomness`: shuffling.
- `UserModel`, `GameplayModels`, `GameSessionModel`: the value types and their stored forms.
- `RoleAssignment`: the round-dealing step shared by the lobby and the gameplay screen.
- `GameplayRules`, `GameplayController`: the gameplay screen.
- `LobbyController`: the lobby.
- `JoinGame`: the join screen.
- `ErrorHandling`: error messages.
- `Authentication`: sign-in.

## Model

| member | source | states |
|---|---|---|
| UserModel.NewUser | GuessingGame/Models/User.swift:10-16 | a new profile carries exactly the given id, name, e-mail and avatar, created now |
| UserModel.NewUserWithDefaults | GuessingGame/Models/User.swift:10-16 | the defaulted initialiser gives no e-mail and the grinning-face avatar |
| UserModel.UserRoundTrip | GuessingGame/Models/User.swift:18-40 | a stored profile decodes back with the same id, name, avatar and creation time; its e-mail comes back unless it was "" |
| UserModel.EmptyEmailIsLost | GuessingGame/Models/User.swift:18-40 | a profile whose e-mail is "" does not survive storage unchanged: "" is written for no e-mail and read back as none |
| UserModel.UserDecodeFailure | GuessingGame/Models/User.swift:28-40 | decoding a profile fails exactly when one of id, displayName, avatar or createdAt is missing or has the wrong type |
| UserModel.MissingEmailAccepted | GuessingGame/Models/User.swift:28-40 | a record without an e-mail field still decodes, with no e-mail |
| GameplayModels.RoleRawRoundTrip | GuessingGame/Models/GameplayModels.swift:5-17 | a role's raw string names that role and no other |
| GameplayModels.PhaseRawRoundTrip | GuessingGame/Models/GameplayModels.swift:19-34 | a phase's raw string names that phase and no other |
| GameplayModels.NewQuestion | GuessingGame/Models/GameplayModels.swift:184-192 | a new question is by the given asker, has the given text, and is unanswered with an empty answer |
| GameplayModels.NewGameState | GuessingGame/Models/GameplayModels.swift:50-63 | a new round is in setup with no word, questions, reactions or winner; its turn order is a rearrangement of the guessers; the first turn goes to the first guesser as passed in, not to the first of the shuffled order |
| GameplayModels.NewGameStateFirstTurn | GuessingGame/Models/GameplayModels.swift:50-63 | the first turn still belongs to a member of the shuffled turn order |
| GameplayModels.IsAnswererTurn | GuessingGame/Models/GameplayModels.swift:267-269 | it is the answerer's turn exactly during setup |
| GameplayModels.LatestQuestion | GuessingGame/Models/GameplayModels.swift:271-273 | the latest question is the last question asked, and is absent exactly when none was asked |
| GameplayModels.Unanswered | GuessingGame/Models/GameplayModels.swift:275-277 | the result holds every unanswered question and only unanswered questions |
| GameplayModels.UnansweredEmptyIffAllAnswered | GuessingGame/Models/GameplayModels.swift:275-277 | no question waits for an answer exactly when every question is answered |
| GameplayModels.NextTurn | GuessingGame/Models/GameplayModels.swift:279-286 | the turn moves to the next player in the turn order, wrapping round; nothing changes when the current player is not in the order |
| GameplayModels.NextTurnTimesMoves | GuessingGame/Models/GameplayModels.swift:279-286 | with a duplicate-free order, k turns move the turn k places along the order, wrapping once |
| GameplayModels.FullCycleReturns | GuessingGame/Models/GameplayModels.swift:279-286 | after one full cycle, the turn is back with the player who had it |
| GameplayModels.AddQuestion | GuessingGame/Models/GameplayModels.swift:288-290 | the question is appended: the earlier questions stay, it becomes the latest, and no other field changes |
| GameplayModels.FindQuestion | GuessingGame/Models/GameplayModels.swift:292-297 | finds the first question with the id, or reports that no question has it |
| GameplayModels.AnswerQuestion | GuessingGame/Models/GameplayModels.swift:292-297 | only the first question with the id is marked answered, with the answer; nothing else changes, and nothing at all when no question has the id |
| GameplayModels.GuessIgnoresCase | GuessingGame/Models/GameplayModels.swift:299-302 | a guess's letter case does not change the verdict |
| GameplayModels.GuessIgnoresSurroundingWhitespace | GuessingGame/Models/GameplayModels.swift:299-302 | leading and trailing whitespace on a guess do not change the verdict |
| GameplayModels.GuessSymmetric | GuessingGame/Models/GameplayModels.swift:299-302 | guess and secret play symmetric parts in the comparison |
| GameplayModels.GuessKeepsInnerWhitespace | GuessingGame/Models/GameplayModels.swift:299-302 | whitespace inside a word does matter: "ele phant" misses "elephant", while "  Elephant " hits it |
| GameplayModels.QuestionFromDict | GuessingGame/Models/GameplayModels.swift:206-222 | a decoded question always has the freshly minted id |
| GameplayModels.QuestionRoundTrip | GuessingGame/Models/GameplayModels.swift:194-222 | a stored question decodes back to itself, except for a fresh id |
| GameplayModels.QuestionIgnoresStoredId | GuessingGame/Models/GameplayModels.swift:206-222 | the stored id has no influence on the decoded question |
| GameplayModels.ReactionRoundTrip | GuessingGame/Models/GameplayModels.swift:138-172 | a reaction survives storage unchanged |
| GameplayModels.MalformedQuestionDropped | GuessingGame/Models/GameplayModels.swift:95 | a question entry that does not decode is skipped, and the entries around it decode as if it were absent |
| GameplayModels.MalformedReactionDropped | GuessingGame/Models/GameplayModels.swift:99-100 | a reaction entry that does not decode is skipped |
| GameplayModels.DecodeEncodedQuestions | GuessingGame/Models/GameplayModels.swift:65-101 | the stored question list decodes to the same questions in the same order, each with a fresh id |
| GameplayModels.DecodeEncodedReactions | GuessingGame/Models/GameplayModels.swift:65-101 | the stored reaction list decodes to the same reactions |
| GameplayModels.GameStateScalarsReadBack | GuessingGame/Models/GameplayModels.swift:65-80 | each scalar field reads back from its storage key; no winner is stored as "" and no turn start as 0 |
| GameplayModels.GameStateRoundTrip | GuessingGame/Models/GameplayModels.swift:65-120 | a stored round always decodes, keeping the answerer, word, category, current turn, phase, round number, time limit and reactions; the turn order comes back as a rearrangement of the stored one; questions get fresh ids; a "" winner and a non-positive turn start come back as none |
| GameSessionModel.NewSession | GuessingGame/Models/GameSession.swift:12-20 | a new session has the host as its only player, is not started, has no round and no roles, and contains its host |
| GameSessionModel.PlayerRoundTrip | GuessingGame/Models/GameSession.swift:115-134 | a stored player decodes back to itself |
| GameSessionModel.DecodedPlayers | GuessingGame/Models/GameSession.swift:51-56 | the decoded players are exactly the entries that decode, keyed by their entry key |
| GameSessionModel.DecodedRoles | GuessingGame/Models/GameSession.swift:67-76 | the decoded roles are exactly the entries whose raw role is known |
| GameSessionModel.CollectPlayers | GuessingGame/Models/GameSession.swift:51-56 | the loop over the stored players yields the decoded players, whatever order the dictionary is visited in |
| GameSessionModel.CollectRoles | GuessingGame/Models/GameSession.swift:67-76 | the loop over the stored roles yields the decoded roles, whatever order the dictionary is visited in |
| GameSessionModel.SessionFromDict | GuessingGame/Models/GameSession.swift:42-84 | every decoded session contains its host |
| GameSessionModel.DecodeSession | GuessingGame/Models/GameSession.swift:42-84 | decoding by the two loops gives the session that the decoding function describes, and it contains its host |
| GameSessionModel.MissingRequiredKey | GuessingGame/Models/GameSession.swift:43-49 | a missing or mistyped id, hostId, players, gameStarted or createdAt makes decoding fail |
| GameSessionModel.HostlessSessionRejected | GuessingGame/Models/GameSession.swift:58-60 | a session whose host has no decodable player entry is rejected, whatever the other keys hold |
| GameSessionModel.UndecodableGameStateIsDropped | GuessingGame/Models/GameSession.swift:78-81 | a missing or undecodable round reads as no round, and does not fail the session |
| GameSessionModel.PlayersReadBack | GuessingGame/Models/GameSession.swift:22-56 | the stored players decode back to the same players |
| GameSessionModel.RolesReadBack | GuessingGame/Models/GameSession.swift:22-76 | the stored roles decode back to the same roles |
| GameSessionModel.SessionLookups | GuessingGame/Models/GameSession.swift:22-40 | each field of a stored session is found under its own key with its own type; the round is stored only when there is one |
| GameSessionModel.SessionRoundTrip | GuessingGame/Models/GameSession.swift:22-84 | a session that contains its host decodes back with the same id, host, players, start flag, roles and creation time, and its round as far as the round codec keeps it |
| GameSessionModel.HostlessSessionLost | GuessingGame/Models/GameSession.swift:58-60 | a session that lacks its host is not read back at all |
| GameSessionModel.SessionWithGameState | GuessingGame/Models/GameSession.swift:42-84 | overwriting the stored round changes only the decoded session's round |
| GameSessionModel.SessionWithPlayer | GuessingGame/Models/GameSession.swift:42-84 | storing a player entry in a decodable session adds or replaces exactly that player |
| GameSessionModel.SessionWithoutPlayer | GuessingGame/Models/GameSession.swift:42-84 | removing a player's entry drops exactly that player, and removing the host's entry makes the session undecodable |
| GameSessionModel.InsertByJoin | GuessingGame/Models/GameSession.swift:90-92 | insertion adds exactly the one player to the list |
| GameSessionModel.SortByJoin | GuessingGame/Models/GameSession.swift:90-92 | the result is sorted by join time and is a rearrangement of the input |
| GameSessionModel.PlayersListSortedPermutation | GuessingGame/Models/GameSession.swift:90-92 | the players list is sorted by join time, has one entry per stored player and holds exactly the stored players, each as many times as keys store it, whatever order the dictionary yields them in |
| Randomness.Shuffled | GuessingGame/Models/GameplayModels.swift:56 | a shuffle is a rearrangement of its input |
| Randomness.EveryArrangementReachable | GuessingGame/Models/GameplayModels.swift:56 | every rearrangement is the outcome of some draws, so no shuffle is left out |
| Randomness.ShuffledDistinct | GuessingGame/Models/GameplayModels.swift:56 | shuffling a duplicate-free list keeps it duplicate-free |
| RoleAssignment.RoleFor | GuessingGame/ViewModels/GameplayViewModel.swift:54 | a player gets the answerer role exactly when it is the dealt answerer |
| RoleAssignment.DealtRoles | GuessingGame/ViewModels/GameplayViewModel.swift:53-55 | after the loop, every dealt id has its role, and the roles of ids that were not dealt stay as they were |
| RoleAssignment.AssignRoles | GuessingGame/ViewModels/GameplayViewModel.swift:53-55 | the loop over the player ids produces the dealt roles |
| RoleAssignment.KeysInSomeOrder | GuessingGame/ViewModels/GameplayViewModel.swift:40 | the players' keys are listed once each, in some order |
| RoleAssignment.DealFrom | GuessingGame/ViewModels/GameplayViewModel.swift:41-43 | the answerer and the guessers together are a rearrangement of the player ids |
| RoleAssignment.DealSplitsPlayers | GuessingGame/ViewModels/GameplayViewModel.swift:40-43 | with distinct ids, the answerer is one of the players and the guessers are all the others, once each |
| RoleAssignment.DealtSessionRoles | GuessingGame/ViewModels/GameplayViewModel.swift:40-55 | after a deal, exactly one player has the answerer role and every other player the guesser role; the turn order holds exactly the other players, once each; the round starts in setup with no questions and no winner |
| RoleAssignment.StaleRolesSurvive | GuessingGame/ViewModels/GameplayViewModel.swift:49-55 | the role of a player who has left is never cleared by a new deal |
| GameplayRules.StartGameplayStep | GuessingGame/ViewModels/GameplayViewModel.swift:30-71 | only the host may start; anyone else gets the host-only message; a start deals a round and leaves the start flag alone |
| GameplayRules.PlayAgainStep | GuessingGame/ViewModels/GameplayViewModel.swift:140-173 | only the host may replay; a replay deals a fresh round in setup, numbered one past the previous round, or 1 when there was none |
| GameplayRules.PlayAgainDealsLikeStart | GuessingGame/ViewModels/GameplayViewModel.swift:140-173 | a replay deals exactly as a start does, except for the round number |
| GameplayRules.SetSecretWordStep | GuessingGame/ViewModels/GameplayViewModel.swift:73-86 | only the answerer may set the word, in any phase; it sets the category and the word and moves to questioning, changing nothing else |
| GameplayRules.AskQuestionStep | GuessingGame/ViewModels/GameplayViewModel.swift:88-105 | only the current-turn player may ask, and only while questioning; the question is appended unanswered and the turn stays |
| GameplayRules.AnswerQuestionStep | GuessingGame/ViewModels/GameplayViewModel.swift:107-118 | only the answerer may answer, in any phase; anyone else gets the answerer-only message |
| GameplayRules.AnswerThenPassTurn | GuessingGame/ViewModels/GameplayViewModel.swift:107-118 | answering changes the questions as answering on the model does and the turn as the next-turn rule does, and nothing else |
| GameplayRules.MakeGuessStep | GuessingGame/ViewModels/GameplayViewModel.swift:120-138 | only the current-turn player may guess; a correct guess makes them the winner and ends the game; a wrong one only passes the turn |
| GameplayRules.CurrentPlayerRole | GuessingGame/ViewModels/GameplayViewModel.swift:217-219 | the user has a role exactly when one is recorded for them in the shown session |
| GameplayRules.IsMyTurn | GuessingGame/ViewModels/GameplayViewModel.swift:229-246 | it is never anyone's turn once the game is over or without a round, and only a player with a recorded role can have a turn |
| GameplayRules.IsMyTurnByPhase | GuessingGame/ViewModels/GameplayViewModel.swift:229-246 | during setup only the answerer has the turn; while questioning the answerer has it exactly when some question is unanswered and a guesser exactly when the current turn is theirs; after game over nobody has it |
| GameplayRules.CurrentTurnPlayer | GuessingGame/ViewModels/GameplayViewModel.swift:248-257 | with no round nobody is shown; during `setup` the answerer's entry is shown, in every later phase the current-turn player's entry, and nobody when that id has no entry in `players` |
| GameplayRules.Winner | GuessingGame/ViewModels/GameplayViewModel.swift:259-265 | the shown winner is the player entry of the recorded winner |
| GameplayRules.PhaseOf | GuessingGame/ViewModels/GameplayViewModel.swift:267-269 | with no round, the phase shows as setup |
| GameplayRules.RoundNumberOf | GuessingGame/ViewModels/GameplayViewModel.swift:287-289 | with no round, the round number shows as 1 |
| GameplayRules.DealtRoundIsAnswerersTurn | GuessingGame/ViewModels/GameplayViewModel.swift:229-257 | right after a deal, the turn belongs to exactly the dealt answerer, who is also shown as the acting player |
| GameplayRules.AskedQuestionWakesAnswerer | GuessingGame/ViewModels/GameplayViewModel.swift:229-246 | once a question is asked, it becomes the answerer's turn |
| GameplayRules.CorrectGuessEndsGame | GuessingGame/ViewModels/GameplayViewModel.swift:120-138 | after a correct guess, the guesser is the shown winner, the phase is game over and nobody has a turn |
| GameplayController.GameStatePath | GuessingGame/ViewModels/GameplayViewModel.swift:175-188 | the round is stored directly under its session's path |
| GameplayController.GameStateWriteReachesListener | GuessingGame/ViewModels/GameplayViewModel.swift:175-213 | once a round write lands on a decodable session, the listener's next snapshot shows the same session with the written round, as far as storage keeps a round |
| GameplayController.GameplayViewModel.constructor | GuessingGame/ViewModels/GameplayViewModel.swift:16-20 | starts with the given session shown, no error, and listening to that session |
| GameplayController.GameplayViewModel.UpdateGameState | GuessingGame/ViewModels/GameplayViewModel.swift:175-188 | writes the round alone under the shown session; a failed write sets the update-failed message; without a session nothing happens |
| GameplayController.GameplayViewModel.StartGameplay | GuessingGame/ViewModels/GameplayViewModel.swift:30-71 | a refused start only sets the message; an accepted one writes the whole dealt session and lowers the loading flag again |
| GameplayController.GameplayViewModel.SetSecretWord | GuessingGame/ViewModels/GameplayViewModel.swift:73-86 | issues exactly the round write that its rule decides on, or shows the refusal and writes nothing |
| GameplayController.GameplayViewModel.AskQuestion | GuessingGame/ViewModels/GameplayViewModel.swift:88-105 | issues exactly the round write that its rule decides on, or shows the refusal and writes nothing |
| GameplayController.GameplayViewModel.AnswerQuestion | GuessingGame/ViewModels/GameplayViewModel.swift:107-118 | issues exactly the round write that its rule decides on, or shows the refusal and writes nothing |
| GameplayController.GameplayViewModel.MakeGuess | GuessingGame/ViewModels/GameplayViewModel.swift:120-138 | issues exactly the round write that its rule decides on, or shows the refusal and writes nothing |
| GameplayController.GameplayViewModel.PlayAgain | GuessingGame/ViewModels/GameplayViewModel.swift:140-173 | a refused replay only sets the message; an accepted one writes the whole re-dealt session |
| GameplayController.GameplayViewModel.OnSnapshot | GuessingGame/ViewModels/GameplayViewModel.swift:192-213 | a missing session sets "Game session ended" and an undecodable one "Invalid session data", both keeping the old session shown; a decodable one replaces the shown session |
| LobbyController.GameCode | GuessingGame/ViewModels/GameLobbyViewModel.swift:248-251 | a generated code has six characters, each an upper-case letter or a digit from the alphabet |
| LobbyController.EveryCodeReachable | GuessingGame/ViewModels/GameLobbyViewModel.swift:248-251 | every six-character code over the alphabet can be generated |
| LobbyController.PlayerFor | GuessingGame/ViewModels/GameLobbyViewModel.swift:35-39 | the user's player entry carries the user's id, name and avatar, joined now |
| LobbyController.PlayerPath | GuessingGame/ViewModels/GameLobbyViewModel.swift:114 | a player entry lies under its session's players |
| LobbyController.JoinDecision | GuessingGame/ViewModels/GameLobbyViewModel.swift:65-132 | a join is allowed only for a non-empty code whose upper-cased session is stored, decodes, has not started and does not already hold the user |
| LobbyController.JoinCheckOrder | GuessingGame/ViewModels/GameLobbyViewModel.swift:65-132 | the refusals come in the order `joinGame` checks them: not found, then invalid data, then already started (even for a member), then already in; a stored, decodable, unstarted session without the user is always joinable, with that decoded session |
| LobbyController.JoinIgnoresCase | GuessingGame/ViewModels/GameLobbyViewModel.swift:71-76 | a code and its lower-case spelling join the same session |
| LobbyController.JoinedPlayerIsVisible | GuessingGame/ViewModels/GameLobbyViewModel.swift:107-131 | once the join write lands, the stored session is the one read before with the user's entry added |
| LobbyController.StartGameStep | GuessingGame/ViewModels/GameLobbyViewModel.swift:134-173 | only the host may start; a start deals a round and marks the session started |
| LobbyController.LobbyStartIsGameplayStart | GuessingGame/ViewModels/GameLobbyViewModel.swift:134-173 | the lobby's start deals exactly as the gameplay screen's start, and also sets the start flag |
| LobbyController.StartedSessionRefusesJoins | GuessingGame/ViewModels/GameLobbyViewModel.swift:93-98 | once a started session is stored, every join by its code is refused as already started |
| LobbyController.LeaveRemovesOnlyThePlayer | GuessingGame/ViewModels/GameLobbyViewModel.swift:175-190 | a landed leave removes exactly the user's entry; when the user is the host, the session becomes undecodable for everyone |
| LobbyController.PlayerCount | GuessingGame/ViewModels/GameLobbyViewModel.swift:258-260 | the count is the number of players in the shown session, or 0 without one |
| LobbyController.GameLobbyViewModel.constructor | GuessingGame/ViewModels/GameLobbyViewModel.swift:18-20 | starts with no session, no error, not connected, not started and not listening |
| LobbyController.GameLobbyViewModel.Cleanup | GuessingGame/ViewModels/GameLobbyViewModel.swift:239-244 | detaches the listener and forgets the session, the connection and the start flag |
| LobbyController.GameLobbyViewModel.CreateGame | GuessingGame/ViewModels/GameLobbyViewModel.swift:30-63 | writes a new session under a generated code with the user as host and only player; on success shows it and listens to it; on failure shows the create-failed message and keeps the old state |
| LobbyController.GameLobbyViewModel.JoinGame | GuessingGame/ViewModels/GameLobbyViewModel.swift:65-132 | each refusal shows its message and writes nothing; an allowed join writes only the user's player entry and, on success, shows the session as read before the write |
| LobbyController.GameLobbyViewModel.AddPlayer | GuessingGame/ViewModels/GameLobbyViewModel.swift:107-131 | writes only the user's player entry; on success shows the session read before the write and listens to its code; on failure shows the join-failed message |
| LobbyController.GameLobbyViewModel.StartGame | GuessingGame/ViewModels/GameLobbyViewModel.swift:134-173 | a refused start only sets the message; an accepted one writes the whole dealt, started session |
| LobbyController.GameLobbyViewModel.LeaveGame | GuessingGame/ViewModels/GameLobbyViewModel.swift:175-190 | removes only the user's entry and then cleans up, whether or not the removal fails; without a session nothing happens |
| LobbyController.GameLobbyViewModel.OnSnapshot | GuessingGame/ViewModels/GameLobbyViewModel.swift:194-230 | a missing session ends the game and cleans up; an undecodable one only sets its message; a session without the user removes them and cleans up; otherwise the session is shown and the start flag latches on |
| JoinGame.NormalizedCodeShape | GuessingGame/ViewModels/JoinGameViewModel.swift:14-20 | a normalised code has at most six characters, all upper-case letters or digits, taken in order from the start of the filtered upper-cased input |
| JoinGame.NormalizeIgnoresTail | GuessingGame/ViewModels/JoinGameViewModel.swift:14-20 | nothing typed after the first six letters and digits changes the normalised code |
| JoinGame.NormalizeIdempotent | GuessingGame/ViewModels/JoinGameViewModel.swift:14-20 | normalising twice is the same as normalising once |
| JoinGame.GeneratedCodeIsNormal | GuessingGame/ViewModels/JoinGameViewModel.swift:14-28 | a code the lobby generates passes normalisation unchanged and is valid |
| JoinGame.IsValidGameCode | GuessingGame/ViewModels/JoinGameViewModel.swift:26-28 | a code is valid exactly when it has six characters |
| JoinGame.NormalizedValidity | GuessingGame/ViewModels/JoinGameViewModel.swift:14-28 | a normalised code is valid exactly when the input held at least six letters and digits |
| JoinGame.AfterEditNormalizesAlike | GuessingGame/ViewModels/JoinGameViewModel.swift:14-20 | whatever the field shows after an edit normalises like the edit; it differs from the normalised edit only when the pipeline dropped a duplicate, and then it is the raw edit |
| JoinGame.SeventhCharacterStays | GuessingGame/ViewModels/JoinGameViewModel.swift:14-20 | typing a seventh letter after "ABCDEF" leaves "ABCDEFG" in the field, which then is not a valid code |
| JoinGame.JoinErrorAlert | GuessingGame/ViewModels/JoinGameViewModel.swift:36-47 | network errors get an alert with a retry and all other errors a plain alert; the message is the user-friendly one |
| JoinGame.ConnectionFailureOffersRetry | GuessingGame/ViewModels/JoinGameViewModel.swift:36-47 | an error shown as a connection failure always offers a retry |
| JoinGame.JoinGameViewModel.constructor | GuessingGame/ViewModels/JoinGameViewModel.swift:12-21 | starts with an empty code, no alert, and the pipeline in step with the field |
| JoinGame.JoinGameViewModel.Edit | GuessingGame/ViewModels/JoinGameViewModel.swift:14-20 | after an edit, the field holds what the pipeline leaves, the last emission is the edit's normalised form, and the two stay in step |
| JoinGame.JoinGameViewModel.IsValidCode | GuessingGame/ViewModels/JoinGameViewModel.swift:26-28 | the field holds a valid code exactly when it has six characters |
| JoinGame.JoinGameViewModel.ShowOfflineError | GuessingGame/ViewModels/JoinGameViewModel.swift:31-33 | raises a plain alert with the no-internet message |
| JoinGame.JoinGameViewModel.HandleGameJoinError | GuessingGame/ViewModels/JoinGameViewModel.swift:36-47 | raises the alert for the error: a retry alert exactly when it is a network error |
| ErrorHandling.HandleAuthError | GuessingGame/Utils/ErrorHandler.swift:21-32 | a network code maps to "connection failed", too-many-requests to "try again later", and every other code to "authentication failed" |
| ErrorHandling.UserFriendlyMessage | GuessingGame/Utils/ErrorHandler.swift:8-18 | a non-auth error shows "connection failed" exactly when its description contains "network", "internet" or "connection" (case-sensitive), and "unknown error" otherwise |
| ErrorHandling.IsNetworkError | GuessingGame/Utils/ErrorHandler.swift:35-45 | an auth error is a network error exactly when its code is the network code |
| ErrorHandling.ConnectionFailedIsNetworkError | GuessingGame/Utils/ErrorHandler.swift:8-45 | every error shown as a connection failure is treated as a network error |
| ErrorHandling.NetworkErrorNotShownAsConnectionFailure | GuessingGame/Utils/ErrorHandler.swift:8-45 | the converse fails: "offline" and "Network" are network errors that show as unknown errors |
| ErrorHandling.ErrorDescriptionsDistinct | GuessingGame/Utils/ErrorHandler.swift:49-73 | two app errors read the same exactly when they are equal or are "session not found" and "invalid code"; unauthorized reads like a failed sign-in |
| Authentication.Accepted | GuessingGame/ViewModels/AuthenticationViewModel.swift:119-142 | rejection sampling keeps at most one character per byte, and only characters of the charset |
| Authentication.CharsetSize | GuessingGame/ViewModels/AuthenticationViewModel.swift:119 | the charset has 64 characters and lacks upper-case 'W' |
| Authentication.NonceShape | GuessingGame/ViewModels/AuthenticationViewModel.swift:117-146 | the nonce has exactly the asked length and uses only charset characters, so never 'W' |
| Authentication.AcceptedSnoc | GuessingGame/ViewModels/AuthenticationViewModel.swift:133-142 | a byte below 64 contributes its charset character; other bytes are skipped |
| Authentication.NonceFullStaysFull | GuessingGame/ViewModels/AuthenticationViewModel.swift:133-142 | more bytes leave a full nonce as it is |
| Authentication.NonceSkipsByte | GuessingGame/ViewModels/AuthenticationViewModel.swift:133-142 | a byte of 64 or more leaves the nonce as it is |
| Authentication.NonceKeepsByte | GuessingGame/ViewModels/AuthenticationViewModel.swift:133-142 | a byte below 64 appends its character to a short nonce |
| Authentication.EveryNonceReachable | GuessingGame/ViewModels/AuthenticationViewModel.swift:117-146 | every string over the charset comes out of some sequence of bytes: the bytes that give each character's charset position |
| Authentication.KeepFromBlock | GuessingGame/ViewModels/AuthenticationViewModel.swift:133-142 | the loop over one block of sixteen bytes extends the nonce exactly as rejection sampling over all bytes drawn so far prescribes |
| Authentication.RandomNonceString | GuessingGame/ViewModels/AuthenticationViewModel.swift:117-146 | the loop over the drawn blocks returns the rejection-sampled nonce of all drawn bytes, with the asked length and charset characters only |
| Authentication.FallbackDisplayName | GuessingGame/ViewModels/AuthenticationViewModel.swift:48 | the name is Firebase's display name, else the e-mail text before "@", else "User" |
| Authentication.NewProfile | GuessingGame/ViewModels/AuthenticationViewModel.swift:47-51 | a fresh profile has the Firebase uid, the fallback name, the Firebase e-mail and the default avatar |
| Authentication.ProfileDecision | GuessingGame/ViewModels/AuthenticationViewModel.swift:39-52 | with a stored profile that decodes: signed in as exactly that decoded user when its avatar is set, else asked for an avatar for exactly that user; without one: asked for an avatar for a fresh profile; a signed-in user always has an avatar |
| Authentication.StoredProfileRestored | GuessingGame/ViewModels/AuthenticationViewModel.swift:39-45 | a stored profile comes back as saved, except that an empty e-mail comes back as none |
| Authentication.SavedAvatarSignsIn | GuessingGame/ViewModels/AuthenticationViewModel.swift:83-104 | after a landed avatar save, loading the profile again signs the user straight in with that avatar |
| Authentication.AuthenticationViewModel.constructor | GuessingGame/ViewModels/AuthenticationViewModel.swift:18-21 | starts signed out with no error and no nonce |
| Authentication.AuthenticationViewModel.LoadUserProfile | GuessingGame/ViewModels/AuthenticationViewModel.swift:35-61 | settles on the profile decision for what is stored; a cancelled read asks for an avatar for a fresh profile |
| Authentication.AuthenticationViewModel.OnAuthStateChanged | GuessingGame/ViewModels/AuthenticationViewModel.swift:23-33 | no signed-in user means signed out; otherwise the user's profile is loaded |
| Authentication.AuthenticationViewModel.SignInWithApple | GuessingGame/ViewModels/AuthenticationViewModel.swift:63-81 | clears the error and remembers the freshly generated 32-character nonce |
| Authentication.AuthenticationViewModel.SaveAvatar | GuessingGame/ViewModels/AuthenticationViewModel.swift:83-104 | acts only while an avatar is needed: writes the profile with the avatar to users/{id} and signs in whether the write fails or not |
| Authentication.AuthenticationViewModel.SignOut | GuessingGame/ViewModels/AuthenticationViewModel.swift:106-113 | a successful sign-out signs out; a failed one shows "Failed to sign out: " with the error and stays in the current state |

## Left out

- Delivery, ordering and concurrency of the database are not modelled. Each write's completion runs inline with the failure it reports. There is no interleaving of several phones' writes, and the database's pruning of empty collections is not modelled. Consequently a freshly dealt round, whose `questions` is `[]`, is stored in the model as an empty list that reads back as a round; a real database would drop the empty list, `GameState.fromDictionary` would then find no `questions` and the session would read back with no round. So `GameStateWriteReachesListener` and `GameStateRoundTrip` hold of the unpruned store only.
- Numbers are unbounded integers. A number satisfies both `as? Int` and `as? TimeInterval`. NSNumber's bridging between numbers and booleans is not modelled. `Date` values are integer instants, not floating-point seconds.
- Case mapping, `isLetter`, `isNumber` and whitespace cover ASCII only; Unicode letters and digits outside ASCII are not modelled.
- The database's rules on which characters a key may hold are not modelled.
- `GameplayModels.GameStateFromDict` rebuilds a decoded round through the round initialiser, which shuffles the turn order again. The model keeps this: the stored turn order comes back as some rearrangement (`GameStateRoundTrip`), not as itself.
- GameplayController.GameplayViewModel.StartGameplay: Swift `startGameplay` crashes on `first!` when the host finds no players; the model requires at least one player instead.
- GameplayController.GameplayViewModel.PlayAgain: the same `first!` crash is modelled as a requires.
- LobbyController.GameLobbyViewModel.StartGame: the same `first!` crash is modelled as a requires.
- GameSessionModel.SortByJoin: Swift's `sorted(by:)` is not stable, so players who joined at the same instant may come out in any order; the model fixes one order for ties, and `PlayersListSortedPermutation` states only what every order shares.
- JoinGame.JoinGameViewModel.Edit: the model assumes that the `gameCode` assignment made by the `sink`, which fires inside the property's `willSet`, is the one that survives, so the outer assignment of the raw edit does not overwrite it; whether it does depends on Swift property-wrapper ordering, which is not modelled. It also assumes the Combine pipeline passes each edit's normalised value through `removeDuplicates` before the next edit. A normalised value that equals the last emission is dropped, so the raw edit stays in the field (`SeventhCharacterStays`). The Join Game view filters the field through its own state as well; that view is not part of this model.
- Authentication.RandomNonceString: Swift `randomNonceString` draws blocks of random bytes until enough are accepted, with no bound. The model takes the drawn blocks as input and requires them to hold enough accepted bytes. A failing `SecRandomCopyBytes`, which the Swift code treats as fatal, is not modelled.
- Authentication.AuthenticationViewModel.SignInWithApple: the request sent to Apple with the nonce's SHA-256 hash is not modelled. Only the state it leaves behind is.
- `sha256`, the Apple authorisation delegate callbacks and `presentationAnchor` are not modelled; they call into CryptoKit, Apple's authentication services and Firebase Auth.
- Emoji reactions and the turn timer are stored and read back, but no code in the core changes them, so no operation on them is modelled.
- Removing listeners in `deinit` is not modelled. The lobby detaches the listener in `Cleanup`, and `listeningTo` records which session each controller listens to.
- The alerts' buttons and retry closures and the other user-interface state (`@Published` flags that only views read) are not modelled. The retry closure shows up only as whether an alert offers a retry.
- The computed `isHost`, `players` and `gameCode` of the controllers are the predicate `HostedBy`, the function `PlayersList` (see `PlayersListSortedPermutation`) and the function `ShownCode`. They carry no row of their own.
