/**
 * The decisions of the gameplay screen's actions and the values its
 * computed properties show, as functions of the session currently shown
 * and the signed-in user. Each action is gated on who the user is (host,
 * answerer or current-turn player); a failed gate yields the message the
 * screen shows and nothing to write.
 */
module GameplayRules {
  import opened Wrappers
  import opened Ascii
  import opened Randomness
  import opened GameplayModels
  import opened GameSessionModel
  import opened RoleAssignment

  /** What a guarded action decides: the message of a failed gate, or what to write. */
  datatype Step<T> = Rejected(message: string) | Accepted(value: T)

  /** `startGameplay`: only the host; deals a round, leaves `gameStarted` as it is. */
  function StartGameplayStep(session: Option<GameSession>, userID: string, playerIDs: seq<string>,
                             draws: seq<nat>, orderDraws: seq<nat>): (r: Step<GameSession>)
    requires HostedBy(session, userID) ==> playerIDs != []
    ensures r.Accepted? <==> HostedBy(session, userID)
    ensures r.Rejected? ==> r.message == "Only the host can start the game"
    ensures r.Accepted? ==> r.value.gameStarted == session.value.gameStarted && r.value.gameState.Some?
  {
    if !HostedBy(session, userID) then Rejected("Only the host can start the game")
    else Accepted(DealtSession(session.value, playerIDs, draws, orderDraws))
  }

  /** `playAgain`: only the host; deals a new round numbered one past the last one. */
  function PlayAgainStep(session: Option<GameSession>, userID: string, playerIDs: seq<string>,
                         draws: seq<nat>, orderDraws: seq<nat>): (r: Step<GameSession>)
    requires HostedBy(session, userID) ==> playerIDs != []
    ensures r.Accepted? <==> HostedBy(session, userID)
    ensures r.Rejected? ==> r.message == "Only the host can start a new game"
    ensures r.Accepted? ==> r.value.gameState.Some?
    ensures r.Accepted? ==>
      r.value.gameState.value.roundNumber ==
      (if session.value.gameState.Some? then session.value.gameState.value.roundNumber + 1 else 1)
    ensures r.Accepted? ==> r.value.gameState.value.phase == Setup && r.value.gameState.value.questions == []
  {
    if !HostedBy(session, userID) then Rejected("Only the host can start a new game")
    else Accepted(Replayed(session.value, playerIDs, draws, orderDraws))
  }

  /** The session `playAgain` writes: a fresh deal, numbered one past the previous round. */
  function Replayed(session: GameSession, playerIDs: seq<string>, draws: seq<nat>, orderDraws: seq<nat>): GameSession
    requires playerIDs != []
  {
    var deal := DealFrom(playerIDs, draws);
    var next := NextRound(NewGameState(deal.answererID, deal.guesserIDs, orderDraws), session.gameState);
    session.(gameState := Some(next), playerRoles := DealtRoles(session.playerRoles, playerIDs, deal.answererID))
  }

  /** A freshly dealt round, numbered one past the `previous` round when there was one. */
  function NextRound(dealt: GameState, previous: Option<GameState>): GameState
  {
    if previous.Some? then dealt.(roundNumber := previous.value.roundNumber + 1) else dealt
  }

  /**
   * Replaying deals exactly as starting does, except that a round that
   * follows an earlier one is numbered one past it.
   */
  lemma PlayAgainDealsLikeStart(session: Option<GameSession>, userID: string, playerIDs: seq<string>,
                                draws: seq<nat>, orderDraws: seq<nat>)
    requires HostedBy(session, userID) ==> playerIDs != []
    requires HostedBy(session, userID)
    ensures var started := StartGameplayStep(session, userID, playerIDs, draws, orderDraws).value;
      var replayed := PlayAgainStep(session, userID, playerIDs, draws, orderDraws).value;
      && replayed.playerRoles == started.playerRoles
      && replayed == started.(gameState := replayed.gameState)
      && replayed.gameState.value == started.gameState.value.(roundNumber := replayed.gameState.value.roundNumber)
  {
  }

  /** A replay by the host is accepted and writes the replayed session. */
  lemma PlayAgainByHost(session: GameSession, playerIDs: seq<string>, draws: seq<nat>, orderDraws: seq<nat>)
    requires playerIDs != []
    ensures PlayAgainStep(Some(session), session.hostId, playerIDs, draws, orderDraws) ==
            Accepted(Replayed(session, playerIDs, draws, orderDraws))
  {
  }

  /** The game state of the shown session, if there is one. */
  function StateOf(session: Option<GameSession>): Option<GameState>
  {
    if session.Some? then session.value.gameState else None
  }

  /**
   * `setSecretWord`: only the answerer, in any phase; sets the category
   * and the word and moves to `questioning`.
   */
  function SetSecretWordStep(session: Option<GameSession>, userID: string, category: string, word: string)
    : (r: Step<GameState>)
    ensures r.Accepted? <==> StateOf(session).Some? && StateOf(session).value.answererID == userID
    ensures r.Rejected? ==> r.message == "Only the answerer can set the secret word"
    ensures r.Accepted? ==>
      && r.value.category == category && r.value.secretWord == word && r.value.phase == Questioning
      && r.value == StateOf(session).value.(category := category, secretWord := word, phase := Questioning)
  {
    var g := StateOf(session);
    if g.None? || g.value.answererID != userID then Rejected("Only the answerer can set the secret word")
    else Accepted(g.value.(category := category, secretWord := word, phase := Questioning))
  }

  /**
   * `askQuestion`: only the current-turn player while `questioning`;
   * appends one unanswered question by the user and leaves the turn where it is.
   */
  function AskQuestionStep(session: Option<GameSession>, askerID: string, askerName: string,
                           text: string, questionID: string, now: int): (r: Step<GameState>)
    ensures r.Accepted? <==> StateOf(session).Some? && StateOf(session).value.currentTurnPlayerID == askerID &&
                             StateOf(session).value.phase == Questioning
    ensures r.Rejected? ==> r.message == "It's not your turn to ask a question"
    ensures r.Accepted? ==> var g := StateOf(session).value;
      && |r.value.questions| == |g.questions| + 1
      && r.value.questions[..|g.questions|] == g.questions
      && LatestQuestion(r.value) == Some(NewQuestion(questionID, askerID, askerName, text, now))
      && !r.value.questions[|g.questions|].isAnswered
      && r.value.currentTurnPlayerID == g.currentTurnPlayerID
      && r.value == g.(questions := r.value.questions)
  {
    var g := StateOf(session);
    if g.None? || g.value.currentTurnPlayerID != askerID || g.value.phase != Questioning
    then Rejected("It's not your turn to ask a question")
    else Accepted(AddQuestion(g.value, NewQuestion(questionID, askerID, askerName, text, now)))
  }

  /** `answerQuestion`: only the answerer; records the answer, then passes the turn on. */
  function AnswerQuestionStep(session: Option<GameSession>, userID: string, questionID: string, answer: string)
    : (r: Step<GameState>)
    ensures r.Accepted? <==> StateOf(session).Some? && StateOf(session).value.answererID == userID
    ensures r.Rejected? ==> r.message == "Only the answerer can answer questions"
  {
    var g := StateOf(session);
    if g.None? || g.value.answererID != userID then Rejected("Only the answerer can answer questions")
    else Accepted(NextTurn(AnswerQuestion(g.value, questionID, answer)))
  }

  /**
   * Answering changes the questions exactly as `answerQuestion` on the
   * model does and the turn exactly as `nextTurn` does: the two updates
   * touch different fields.
   */
  lemma AnswerThenPassTurn(session: Option<GameSession>, userID: string, questionID: string, answer: string)
    requires StateOf(session).Some? && StateOf(session).value.answererID == userID
    ensures var g := StateOf(session).value;
      var r := AnswerQuestionStep(session, userID, questionID, answer).value;
      && r.questions == AnswerQuestion(g, questionID, answer).questions
      && r.currentTurnPlayerID == NextTurn(g).currentTurnPlayerID
      && r == g.(questions := r.questions, currentTurnPlayerID := r.currentTurnPlayerID)
  {
    var g := StateOf(session).value;
    var a := AnswerQuestion(g, questionID, answer);
    assert AnswerQuestionStep(session, userID, questionID, answer).value == NextTurn(a);
    assert a == g.(questions := a.questions);
    NextTurnOnlyMovesTurn(a);
    NextTurnReadsOnlyTurn(a, g);
  }

  /**
   * `makeGuess`: only the current-turn player, in any phase; a correct
   * guess wins and ends the game, a wrong one only passes the turn on.
   */
  function MakeGuessStep(session: Option<GameSession>, userID: string, guess: string): (r: Step<GameState>)
    ensures r.Accepted? <==> StateOf(session).Some? && StateOf(session).value.currentTurnPlayerID == userID
    ensures r.Rejected? ==> r.message == "It's not your turn to make a guess"
    ensures r.Accepted? && IsCorrectGuess(StateOf(session).value, guess) ==>
      && r.value.winnerID == Some(userID) && r.value.phase == GameOver
      && r.value == StateOf(session).value.(winnerID := r.value.winnerID, phase := r.value.phase)
    ensures r.Accepted? && !IsCorrectGuess(StateOf(session).value, guess) ==>
      r.value == NextTurn(StateOf(session).value)
  {
    var g := StateOf(session);
    if g.None? || g.value.currentTurnPlayerID != userID then Rejected("It's not your turn to make a guess")
    else if IsCorrectGuess(g.value, guess) then Accepted(g.value.(winnerID := Some(userID), phase := GameOver))
    else Accepted(NextTurn(g.value))
  }

  // ----- computed properties -----

  /** `currentPlayerRole` */
  function CurrentPlayerRole(session: Option<GameSession>, userID: string): (r: Option<PlayerRole>)
    ensures r.Some? <==> session.Some? && userID in session.value.playerRoles
  {
    if session.Some? && userID in session.value.playerRoles then Some(session.value.playerRoles[userID]) else None
  }

  /**
   * `isMyTurn`: the answerer (by recorded role) acts during `setup` and
   * while unanswered questions wait; a guesser acts while `questioning` on
   * their own turn; nobody acts after the game is over.
   */
  function IsMyTurn(session: Option<GameSession>, userID: string): (r: bool)
    ensures r ==> StateOf(session).Some? && StateOf(session).value.phase != GameOver
    ensures r ==> CurrentPlayerRole(session, userID).Some?
  {
    var g := StateOf(session);
    var role := CurrentPlayerRole(session, userID);
    if g.None? then false
    else if g.value.phase == Setup && role == Some(Answerer) then true
    else if g.value.phase == Questioning then
      (role == Some(Answerer) && |UnansweredQuestions(g.value)| > 0) ||
      (role == Some(Guesser) && g.value.currentTurnPlayerID == userID)
    else false
  }

  /**
   * Whose turn it is, phase by phase: during `setup` only the answerer's;
   * while `questioning` the answerer's exactly when some question is still
   * unanswered, and a guesser's exactly on their own turn; never after the
   * game is over.
   */
  lemma IsMyTurnByPhase(session: Option<GameSession>, userID: string)
    requires StateOf(session).Some?
    ensures var g := StateOf(session).value;
      var role := CurrentPlayerRole(session, userID);
      && (g.phase == Setup ==> (IsMyTurn(session, userID) <==> role == Some(Answerer)))
      && (g.phase == Questioning && role == Some(Answerer) ==>
          (IsMyTurn(session, userID) <==> exists i :: 0 <= i < |g.questions| && !g.questions[i].isAnswered))
      && (g.phase == Questioning && role == Some(Guesser) ==>
          (IsMyTurn(session, userID) <==> g.currentTurnPlayerID == userID))
      && (g.phase == GameOver ==> !IsMyTurn(session, userID))
  {
    var g := StateOf(session).value;
    UnansweredEmptyIffAllAnswered(g.questions);
  }

  /** `currentTurnPlayer`: the answerer during `setup`, otherwise the current-turn player. */
  function CurrentTurnPlayer(session: Option<GameSession>): (r: Option<GamePlayer>)
    ensures r.Some? ==> StateOf(session).Some?
    ensures r.Some? ==> r.value in session.value.players.Values
    ensures StateOf(session).None? ==> r.None?
    ensures StateOf(session).Some? && StateOf(session).value.phase == Setup ==>
      var id := StateOf(session).value.answererID;
      r == if id in session.value.players then Some(session.value.players[id]) else None
    ensures StateOf(session).Some? && StateOf(session).value.phase != Setup ==>
      var id := StateOf(session).value.currentTurnPlayerID;
      r == if id in session.value.players then Some(session.value.players[id]) else None
  {
    var g := StateOf(session);
    if g.None? then None
    else
      var id := if g.value.phase == Setup then g.value.answererID else g.value.currentTurnPlayerID;
      if id in session.value.players then Some(session.value.players[id]) else None
  }

  /** `winner`: the player entry of the recorded winner. */
  function Winner(session: Option<GameSession>): (r: Option<GamePlayer>)
    ensures r.Some? ==> StateOf(session).Some? && StateOf(session).value.winnerID.Some?
    ensures r.Some? ==> StateOf(session).value.winnerID.value in session.value.players &&
                        r.value == session.value.players[StateOf(session).value.winnerID.value]
  {
    var g := StateOf(session);
    if g.None? || g.value.winnerID.None? || g.value.winnerID.value !in session.value.players then None
    else Some(session.value.players[g.value.winnerID.value])
  }

  /** `gamePhase`: `setup` when there is no game state. */
  function PhaseOf(session: Option<GameSession>): (r: GamePhase)
    ensures StateOf(session).None? ==> r == Setup
  {
    if StateOf(session).Some? then StateOf(session).value.phase else Setup
  }

  /** `roundNumber`: 1 when there is no game state. */
  function RoundNumberOf(session: Option<GameSession>): (r: int)
    ensures StateOf(session).None? ==> r == 1
  {
    if StateOf(session).Some? then StateOf(session).value.roundNumber else 1
  }

  /** The shown session with `g` in place of its game state, as the next snapshot carries it. */
  function WithState(session: GameSession, g: GameState): GameSession
  {
    session.(gameState := Some(g))
  }

  // ----- how the actions and the views fit together -----

  /**
   * Right after a deal, exactly the dealt answerer sees it as their turn,
   * and the answerer is the one shown as the current-turn player.
   */
  lemma DealtRoundIsAnswerersTurn(s: GameSession, playerIDs: seq<string>, draws: seq<nat>,
                                  orderDraws: seq<nat>, k: string)
    requires EnumeratesKeys(s.players, playerIDs) && playerIDs != [] && k in s.players
    ensures var r := DealtSession(s, playerIDs, draws, orderDraws);
      && (IsMyTurn(Some(r), k) <==> k == r.gameState.value.answererID)
      && CurrentTurnPlayer(Some(r)) == Some(s.players[r.gameState.value.answererID])
  {
    DealtSessionRoles(s, playerIDs, draws, orderDraws);
  }

  /** Once a question has been asked, the answerer (by recorded role) sees it as their turn. */
  lemma AskedQuestionWakesAnswerer(session: Option<GameSession>, askerID: string, askerName: string,
                                   text: string, questionID: string, now: int, answerer: string)
    requires AskQuestionStep(session, askerID, askerName, text, questionID, now).Accepted?
    requires CurrentPlayerRole(session, answerer) == Some(Answerer)
    ensures var g := AskQuestionStep(session, askerID, askerName, text, questionID, now).value;
      IsMyTurn(Some(WithState(session.value, g)), answerer)
  {
    var g := AskQuestionStep(session, askerID, askerName, text, questionID, now).value;
    var q := g.questions[|g.questions| - 1];
    assert !q.isAnswered;
    assert q in UnansweredQuestions(g);
  }

  /**
   * A correct guess by a player makes that player the shown winner and
   * leaves nobody a turn.
   */
  lemma CorrectGuessEndsGame(session: Option<GameSession>, userID: string, guess: string, anyone: string)
    requires MakeGuessStep(session, userID, guess).Accepted?
    requires IsCorrectGuess(StateOf(session).value, guess)
    requires userID in session.value.players
    ensures var after := Some(WithState(session.value, MakeGuessStep(session, userID, guess).value));
      && Winner(after) == Some(session.value.players[userID])
      && PhaseOf(after) == GameOver
      && !IsMyTurn(after, anyone)
  {
  }
}
