/**
 * The gameplay screen's controller (`GameplayViewModel`): the session it
 * shows, its loading flag and error message, and the writes its actions
 * issue. Each completion handler runs inline with the failure the write
 * reports, if any; the session is changed only by the listener.
 */
module GameplayController {
  import opened Wrappers
  import opened KeyValue
  import opened DocumentStore
  import opened UserModel
  import opened GameplayModels
  import opened GameSessionModel
  import opened RoleAssignment
  import opened GameplayRules

  /** `sessions/{id}/gameState` */
  function GameStatePath(id: string): (p: Path)
    ensures |p| == 3 && p[..2] == SessionPath(id)
  {
    ["sessions", id, "gameState"]
  }

  /** The write `updateGameState` issues for `g`. */
  function GameStateWrite(id: string, g: GameState): Write
  {
    SetAt(GameStatePath(id), Map(GameStateToDict(g)))
  }

  /** The write that stores a whole session. */
  function SessionWrite(s: GameSession): Write
  {
    SetAt(SessionPath(s.id), Map(SessionToDict(s)))
  }

  /**
   * When `updateGameState`'s write lands on a stored session that decodes,
   * the listener's next snapshot decodes to the same session with the
   * written game state, as far as storage keeps a game state.
   */
  lemma GameStateWriteReachesListener(root: Dict, id: string, d: Dict, g: GameState, e: Entropy)
    requires Get(root, SessionPath(id)) == Some(Map(d)) && SessionFromDict(d, e).Some?
    ensures var after := Get(Apply(root, GameStateWrite(id, g)), SessionPath(id));
      && after.Some?
      && SessionFromValue(after.value, e).Some?
      && var s := SessionFromValue(after.value, e).value;
        && s == SessionFromDict(d, e).value.(gameState := s.gameState)
        && s.gameState.Some?
        && SurvivesStorage(g, s.gameState.value, e)
  {
    assert GameStatePath(id) == SessionPath(id) + ["gameState"];
    PutInside(root, SessionPath(id), ["gameState"], Map(GameStateToDict(g)));
    SessionWithGameState(d, GameStateToDict(g), e);
    GameStateRoundTrip(g, e);
  }

  class GameplayViewModel {
    var gameSession: Option<GameSession>
    var isLoading: bool
    var errorMessage: string
    const currentUser: User
    /** The session id the value listener is attached to (`sessionListener`). */
    var listeningTo: Option<string>
    const store: Store

    /** `init(user:gameSession:)`, which starts listening at once. */
    constructor (user: User, session: GameSession, store: Store)
      ensures gameSession == Some(session) && currentUser == user && this.store == store
      ensures !isLoading && errorMessage == "" && listeningTo == Some(session.id)
    {
      currentUser := user;
      gameSession := Some(session);
      isLoading := false;
      errorMessage := "";
      listeningTo := Some(session.id);
      this.store := store;
    }

    /** `updateGameState`: writes the game state alone under the shown session. */
    method UpdateGameState(g: GameState, failure: Option<string>)
      modifies this`errorMessage, store
      ensures gameSession.None? ==> errorMessage == old(errorMessage) && unchanged(store)
      ensures gameSession.Some? ==>
        && store.log == old(store.log) + [GameStateWrite(gameSession.value.id, g)]
        && store.root == Commit(old(store.root), GameStateWrite(gameSession.value.id, g), failure)
        && errorMessage == (if failure.Some? then "Failed to update game: " + failure.value else old(errorMessage))
    {
      if gameSession.None? {
        return;
      }
      store.Set(GameStatePath(gameSession.value.id), Map(GameStateToDict(g)), failure);
      if failure.Some? {
        errorMessage := "Failed to update game: " + failure.value;
      }
    }

    /**
     * `startGameplay`: by the host, deals a round and writes the whole
     * session; the loading flag is down again once the write completes.
     * `order` is the order in which the players' keys were visited. The
     * Swift `startGameplay` traps on `first!` when the host finds no players at all.
     */
    method StartGameplay(draws: seq<nat>, orderDraws: seq<nat>, failure: Option<string>)
      returns (ghost order: seq<string>)
      requires HostedBy(gameSession, currentUser.id) ==> |gameSession.value.players| > 0
      modifies this`isLoading, this`errorMessage, store
      ensures HostedBy(gameSession, currentUser.id) ==> EnumeratesKeys(gameSession.value.players, order) && order != []
      ensures var step := StartGameplayStep(gameSession, currentUser.id, order, draws, orderDraws);
        && (step.Rejected? ==> errorMessage == step.message && isLoading == old(isLoading) && unchanged(store))
        && (step.Accepted? ==>
          && !isLoading
          && store.log == old(store.log) + [SessionWrite(step.value)]
          && store.root == Commit(old(store.root), SessionWrite(step.value), failure)
          && errorMessage == (if failure.Some? then "Failed to start game: " + failure.value else old(errorMessage)))
    {
      order := [];
      if gameSession.None? || gameSession.value.hostId != currentUser.id {
        errorMessage := "Only the host can start the game";
        return;
      }
      var session := gameSession.value;
      isLoading := true;
      var playerIDs := KeysInSomeOrder(session.players);
      order := playerIDs;
      var deal := DealFrom(playerIDs, draws);
      var gameState := NewGameState(deal.answererID, deal.guesserIDs, orderDraws);
      var roles := AssignRoles(session.playerRoles, playerIDs, deal.answererID);
      var updated := session.(gameState := Some(gameState), playerRoles := roles);
      assert updated == StartGameplayStep(gameSession, currentUser.id, order, draws, orderDraws).value;
      store.Set(SessionPath(session.id), Map(SessionToDict(updated)), failure);
      if failure.Some? {
        errorMessage := "Failed to start game: " + failure.value;
      }
      isLoading := false;
    }

    /** `setSecretWord` */
    method SetSecretWord(category: string, word: string, failure: Option<string>)
      modifies this`errorMessage, store
      ensures var step := SetSecretWordStep(gameSession, currentUser.id, category, word);
        && (step.Rejected? ==> errorMessage == step.message && unchanged(store))
        && (step.Accepted? ==>
          && store.log == old(store.log) + [GameStateWrite(gameSession.value.id, step.value)]
          && store.root == Commit(old(store.root), GameStateWrite(gameSession.value.id, step.value), failure)
          && errorMessage == (if failure.Some? then "Failed to update game: " + failure.value else old(errorMessage)))
    {
      if gameSession.None? || gameSession.value.gameState.None? ||
         gameSession.value.gameState.value.answererID != currentUser.id {
        errorMessage := "Only the answerer can set the secret word";
        return;
      }
      var g := gameSession.value.gameState.value;
      g := g.(category := category, secretWord := word, phase := Questioning);
      UpdateGameState(g, failure);
    }

    /** `askQuestion`; `questionID` and `now` stand for the new question's UUID and date. */
    method AskQuestion(text: string, questionID: string, now: int, failure: Option<string>)
      modifies this`errorMessage, store
      ensures var step := AskQuestionStep(gameSession, currentUser.id, currentUser.displayName, text, questionID, now);
        && (step.Rejected? ==> errorMessage == step.message && unchanged(store))
        && (step.Accepted? ==>
          && store.log == old(store.log) + [GameStateWrite(gameSession.value.id, step.value)]
          && store.root == Commit(old(store.root), GameStateWrite(gameSession.value.id, step.value), failure)
          && errorMessage == (if failure.Some? then "Failed to update game: " + failure.value else old(errorMessage)))
    {
      if gameSession.None? || gameSession.value.gameState.None? ||
         gameSession.value.gameState.value.currentTurnPlayerID != currentUser.id ||
         gameSession.value.gameState.value.phase != Questioning {
        errorMessage := "It's not your turn to ask a question";
        return;
      }
      var g := gameSession.value.gameState.value;
      var question := NewQuestion(questionID, currentUser.id, currentUser.displayName, text, now);
      g := AddQuestion(g, question);
      UpdateGameState(g, failure);
    }

    /** `answerQuestion(questionID:answer:)` */
    method AnswerQuestion(questionID: string, answer: string, failure: Option<string>)
      modifies this`errorMessage, store
      ensures var step := AnswerQuestionStep(gameSession, currentUser.id, questionID, answer);
        && (step.Rejected? ==> errorMessage == step.message && unchanged(store))
        && (step.Accepted? ==>
          && store.log == old(store.log) + [GameStateWrite(gameSession.value.id, step.value)]
          && store.root == Commit(old(store.root), GameStateWrite(gameSession.value.id, step.value), failure)
          && errorMessage == (if failure.Some? then "Failed to update game: " + failure.value else old(errorMessage)))
    {
      if gameSession.None? || gameSession.value.gameState.None? ||
         gameSession.value.gameState.value.answererID != currentUser.id {
        errorMessage := "Only the answerer can answer questions";
        return;
      }
      var g := gameSession.value.gameState.value;
      g := GameplayModels.AnswerQuestion(g, questionID, answer);
      g := NextTurn(g);
      UpdateGameState(g, failure);
    }

    /** `makeGuess` */
    method MakeGuess(guess: string, failure: Option<string>)
      modifies this`errorMessage, store
      ensures var step := MakeGuessStep(gameSession, currentUser.id, guess);
        && (step.Rejected? ==> errorMessage == step.message && unchanged(store))
        && (step.Accepted? ==>
          && store.log == old(store.log) + [GameStateWrite(gameSession.value.id, step.value)]
          && store.root == Commit(old(store.root), GameStateWrite(gameSession.value.id, step.value), failure)
          && errorMessage == (if failure.Some? then "Failed to update game: " + failure.value else old(errorMessage)))
    {
      if gameSession.None? || gameSession.value.gameState.None? ||
         gameSession.value.gameState.value.currentTurnPlayerID != currentUser.id {
        errorMessage := "It's not your turn to make a guess";
        return;
      }
      var g := gameSession.value.gameState.value;
      if IsCorrectGuess(g, guess) {
        g := g.(winnerID := Some(currentUser.id), phase := GameOver);
      } else {
        g := NextTurn(g);
      }
      UpdateGameState(g, failure);
    }

    /** `playAgain`: by the host, deals a new round and writes the whole session. */
    method PlayAgain(draws: seq<nat>, orderDraws: seq<nat>, failure: Option<string>)
      returns (ghost order: seq<string>)
      requires HostedBy(gameSession, currentUser.id) ==> |gameSession.value.players| > 0
      modifies this`errorMessage, store
      ensures HostedBy(gameSession, currentUser.id) ==> EnumeratesKeys(gameSession.value.players, order) && order != []
      ensures var step := PlayAgainStep(gameSession, currentUser.id, order, draws, orderDraws);
        && (step.Rejected? ==> errorMessage == step.message && unchanged(store))
        && (step.Accepted? ==>
          && store.log == old(store.log) + [SessionWrite(step.value)]
          && store.root == Commit(old(store.root), SessionWrite(step.value), failure)
          && errorMessage == (if failure.Some? then "Failed to start new game: " + failure.value else old(errorMessage)))
    {
      order := [];
      if gameSession.None? || gameSession.value.hostId != currentUser.id {
        errorMessage := "Only the host can start a new game";
        return;
      }
      var session := gameSession.value;
      var playerIDs := KeysInSomeOrder(session.players);
      order := playerIDs;
      var deal := DealFrom(playerIDs, draws);
      var newGameState := NewGameState(deal.answererID, deal.guesserIDs, orderDraws);
      ghost var dealt := newGameState;
      if session.gameState.Some? {
        newGameState := newGameState.(roundNumber := session.gameState.value.roundNumber + 1);
      }
      assert newGameState == NextRound(dealt, session.gameState);
      var roles := AssignRoles(session.playerRoles, playerIDs, deal.answererID);
      var updated := session.(gameState := Some(newGameState), playerRoles := roles);
      PlayAgainByHost(session, playerIDs, draws, orderDraws);
      assert updated == Replayed(session, playerIDs, draws, orderDraws);
      store.Set(SessionPath(session.id), Map(SessionToDict(updated)), failure);
      if failure.Some? {
        errorMessage := "Failed to start new game: " + failure.value;
      }
    }

    /**
     * The value listener's body for one snapshot of `sessions/{id}`
     * (`None` when nothing is stored there). A missing session only sets
     * the message: the listener stays attached and the old session stays
     * shown.
     */
    method OnSnapshot(snapshot: Option<Value>, e: Entropy)
      modifies this`gameSession, this`errorMessage
      ensures snapshot.None? ==> errorMessage == "Game session ended" && gameSession == old(gameSession)
      ensures snapshot.Some? && SessionFromValue(snapshot.value, e).None? ==>
        errorMessage == "Invalid session data" && gameSession == old(gameSession)
      ensures snapshot.Some? && SessionFromValue(snapshot.value, e).Some? ==>
        gameSession == SessionFromValue(snapshot.value, e) && errorMessage == old(errorMessage)
    {
      if snapshot.None? {
        errorMessage := "Game session ended";
        return;
      }
      var updated := DecodeSession(snapshot.value, e);
      if updated.None? {
        errorMessage := "Invalid session data";
        return;
      }
      gameSession := updated;
    }
  }
}
