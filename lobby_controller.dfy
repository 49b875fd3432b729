/**
 * The lobby's controller (`GameLobbyViewModel`): creating a session under
 * a fresh code, joining one by code, starting it, leaving it, and what
 * each snapshot of the joined session does to the lobby.
 */
module LobbyController {
  import opened Wrappers
  import opened Ascii
  import opened Randomness
  import opened KeyValue
  import opened DocumentStore
  import opened UserModel
  import opened GameplayModels
  import opened GameSessionModel
  import opened RoleAssignment
  import opened GameplayRules

  const CodeAlphabet: string := "ABCDEFGHIJKLMNOPQRSTUVWXYZ0123456789"
  const CodeLength: nat := 6

  /** The `i`-th draw, 0 once the draws run out. */
  function Draw(draws: seq<nat>, i: nat): nat
  {
    if i < |draws| then draws[i] else 0
  }

  /**
   * `generateGameCode`: six `randomElement()` picks from the alphabet; the
   * `i`-th pick is the `i`-th draw reduced modulo the alphabet's size.
   */
  function GameCode(draws: seq<nat>): (code: string)
    ensures |code| == CodeLength
    ensures forall i :: 0 <= i < |code| ==> code[i] in CodeAlphabet
    ensures forall i :: 0 <= i < |code| ==> IsUpper(code[i]) || IsDigit(code[i])
  {
    seq(CodeLength, i requires 0 <= i < CodeLength => CodeAlphabet[Draw(draws, i) % |CodeAlphabet|])
  }

  /** Every six-character code over the alphabet can come out of the generator. */
  lemma EveryCodeReachable(code: string)
    requires |code| == CodeLength && forall i :: 0 <= i < |code| ==> code[i] in CodeAlphabet
    ensures GameCode(seq(CodeLength, i requires 0 <= i < CodeLength => IndexOfChar(CodeAlphabet, code[i]))) == code
  {
    var draws := seq(CodeLength, i requires 0 <= i < CodeLength => IndexOfChar(CodeAlphabet, code[i]));
    forall i | 0 <= i < CodeLength ensures GameCode(draws)[i] == code[i] {
      var k := IndexOfChar(CodeAlphabet, code[i]);
      assert Draw(draws, i) == k;
      ModOfSmaller(k, |CodeAlphabet|);
    }
  }

  /** `GamePlayer(id:displayName:avatar:)` for the signed-in user; `now` stands for `Date()`. */
  function PlayerFor(u: User, now: int): (p: GamePlayer)
    ensures p.id == u.id && p.displayName == u.displayName && p.avatar == u.avatar && p.joinedAt == now
  {
    GamePlayer(u.id, u.displayName, u.avatar, now)
  }

  /** `sessions/{code}/players` */
  function PlayersPath(code: string): (p: Path)
    ensures p == SessionPath(code) + ["players"]
  {
    ["sessions", code, "players"]
  }

  /** `sessions/{code}/players/{playerId}` */
  function PlayerPath(code: string, playerID: string): (p: Path)
    ensures p == SessionPath(code) + ["players", playerID]
    ensures p == PlayersPath(code) + [playerID]
  {
    ["sessions", code, "players", playerID]
  }

  // ----- joining -----

  /** What `joinGame` finds, in the order it checks. */
  datatype JoinCheck =
    | EmptyCode
    | NotFound
    | InvalidData
    | AlreadyStarted
    | AlreadyIn
    | CanJoin(session: GameSession)

  /** The message shown for each refusal. */
  function JoinMessage(c: JoinCheck): string
  {
    match c
    case EmptyCode => "Please enter a game code"
    case NotFound => "Game session not found. Please check the code and try again."
    case InvalidData => "Invalid game session data"
    case AlreadyStarted => "This game has already started"
    case AlreadyIn => "You're already in this game"
    case CanJoin(_) => ""
  }

  /** `joinGame`'s checks against the stored contents `root`, for the user `userID`. */
  function JoinDecision(code: string, root: Dict, userID: string, e: Entropy): (c: JoinCheck)
    ensures c.EmptyCode? <==> code == ""
    ensures c.CanJoin? ==> code != "" && userID !in c.session.players && !c.session.gameStarted
    ensures c.CanJoin? ==> Get(root, SessionPath(Upper(code))).Some? &&
                           SessionFromValue(Get(root, SessionPath(Upper(code))).value, e) == Some(c.session)
  {
    if code == "" then EmptyCode
    else
      var snapshot := Get(root, SessionPath(Upper(code)));
      if snapshot.None? then NotFound
      else
        var session := SessionFromValue(snapshot.value, e);
        if session.None? then InvalidData
        else if session.value.gameStarted then AlreadyStarted
        else if userID in session.value.players then AlreadyIn
        else CanJoin(session.value)
  }

  /**
   * The checks come in a fixed order: a missing session is reported before
   * anything about its contents, bad data before the start flag, and a
   * started game even to a user who is already in it.
   */
  lemma JoinCheckOrder(code: string, root: Dict, userID: string, e: Entropy)
    requires code != ""
    ensures var snapshot := Get(root, SessionPath(Upper(code)));
      && (snapshot.None? ==> JoinDecision(code, root, userID, e) == NotFound)
      && (snapshot.Some? && SessionFromValue(snapshot.value, e).None? ==> JoinDecision(code, root, userID, e) == InvalidData)
      && (snapshot.Some? && SessionFromValue(snapshot.value, e).Some? && SessionFromValue(snapshot.value, e).value.gameStarted ==>
          JoinDecision(code, root, userID, e) == AlreadyStarted)
      && (snapshot.Some? && SessionFromValue(snapshot.value, e).Some? &&
          userID in SessionFromValue(snapshot.value, e).value.players ==>
          JoinDecision(code, root, userID, e) in {AlreadyStarted, AlreadyIn})
      && (snapshot.Some? && SessionFromValue(snapshot.value, e).Some? &&
          !SessionFromValue(snapshot.value, e).value.gameStarted &&
          userID !in SessionFromValue(snapshot.value, e).value.players ==>
          JoinDecision(code, root, userID, e) == CanJoin(SessionFromValue(snapshot.value, e).value))
  {
  }

  /** Codes are looked up uppercased, so a code and its lower-case spelling join the same session. */
  lemma JoinIgnoresCase(code: string, root: Dict, userID: string, e: Entropy)
    ensures JoinDecision(Lower(code), root, userID, e) == JoinDecision(code, root, userID, e)
  {
    UpperLower(code);
  }

  /** The write `joinGame` issues: the user's own player entry. */
  function JoinWrite(code: string, u: User, now: int): Write
  {
    SetAt(PlayerPath(Upper(code), u.id), Map(PlayerToDict(PlayerFor(u, now))))
  }

  /**
   * When the join write lands, the stored session decodes to the one the
   * user saw with the user's own entry added, so the user's next snapshot
   * is not a removal.
   */
  lemma JoinedPlayerIsVisible(code: string, root: Dict, u: User, now: int, e: Entropy)
    requires JoinDecision(code, root, u.id, e).CanJoin?
    ensures var after := Apply(root, JoinWrite(code, u, now));
      var seen := JoinDecision(code, root, u.id, e).session;
      && Get(after, SessionPath(Upper(code))).Some?
      && SessionFromValue(Get(after, SessionPath(Upper(code))).value, e) ==
         Some(seen.(players := seen.players[u.id := PlayerFor(u, now)]))
  {
    var path := SessionPath(Upper(code));
    var d := Get(root, path).value.entries;
    var v := Map(PlayerToDict(PlayerFor(u, now)));
    PutInside(root, path, ["players", u.id], v);
    SessionWithPlayer(d, u.id, PlayerFor(u, now), e);
    PutTwoDeep(d, "players", u.id, v);
  }

  // ----- starting -----

  /** `startGame`: only the host; deals a round and marks the session as started. */
  function StartGameStep(session: Option<GameSession>, userID: string, playerIDs: seq<string>,
                         draws: seq<nat>, orderDraws: seq<nat>): (r: Step<GameSession>)
    requires HostedBy(session, userID) ==> playerIDs != []
    ensures r.Accepted? <==> HostedBy(session, userID)
    ensures r.Rejected? ==> r.message == "Only the host can start the game"
    ensures r.Accepted? ==> r.value.gameStarted && r.value.gameState.Some?
  {
    if !HostedBy(session, userID) then Rejected("Only the host can start the game")
    else Accepted(DealtSession(session.value, playerIDs, draws, orderDraws).(gameStarted := true))
  }

  /**
   * The lobby starts a game exactly as the gameplay screen's `startGameplay`
   * does, and additionally sets `gameStarted`.
   */
  lemma LobbyStartIsGameplayStart(session: Option<GameSession>, userID: string, playerIDs: seq<string>,
                                  draws: seq<nat>, orderDraws: seq<nat>)
    requires HostedBy(session, userID) ==> playerIDs != []
    ensures StartGameStep(session, userID, playerIDs, draws, orderDraws).Accepted? ==
            StartGameplayStep(session, userID, playerIDs, draws, orderDraws).Accepted?
    ensures StartGameStep(session, userID, playerIDs, draws, orderDraws).Accepted? ==>
      StartGameStep(session, userID, playerIDs, draws, orderDraws).value ==
      StartGameplayStep(session, userID, playerIDs, draws, orderDraws).value.(gameStarted := true)
  {
  }

  /**
   * Once a started session is stored, every later attempt to join it by its
   * code is refused as already started.
   */
  lemma StartedSessionRefusesJoins(root: Dict, s: GameSession, code: string, userID: string, e: Entropy)
    requires s.gameStarted && IsHost(s)
    requires code != "" && Upper(code) == s.id
    ensures var after := Apply(root, SetAt(SessionPath(s.id), Map(SessionToDict(s))));
      JoinDecision(code, after, userID, e) == AlreadyStarted
  {
    GetAfterPut(root, SessionPath(s.id), Map(SessionToDict(s)));
    SessionRoundTrip(s, e);
  }

  // ----- leaving -----

  /**
   * When the removal of the user's entry lands, the stored session loses
   * that player and nothing else: host, roles and game state stay as they
   * were. When the user is the host, the session no longer decodes.
   */
  lemma LeaveRemovesOnlyThePlayer(root: Dict, id: string, userID: string, e: Entropy)
    requires Get(root, SessionPath(id)).Some?
    requires SessionFromValue(Get(root, SessionPath(id)).value, e).Some?
    ensures var before := SessionFromValue(Get(root, SessionPath(id)).value, e).value;
      var after := Get(Apply(root, RemoveAt(PlayerPath(id, userID))), SessionPath(id));
      && after.Some?
      && (userID == before.hostId ==> SessionFromValue(after.value, e).None?)
      && (userID != before.hostId ==> SessionFromValue(after.value, e) == Some(before.(players := before.players - {userID})))
  {
    var path := SessionPath(id);
    var d := Get(root, path).value.entries;
    DeleteInside(root, path, ["players", userID]);
    SessionWithoutPlayer(d, userID, e);
    DeleteTwoDeep(d, "players", userID);
  }

  // ----- computed properties -----

  /** `playerCount` */
  function PlayerCount(session: Option<GameSession>): (n: nat)
    ensures session.None? ==> n == 0
    ensures session.Some? ==> n == |session.value.players|
  {
    if session.Some? then |session.value.players| else 0
  }

  /** `gameCode`: the shown session's id, or "" */
  function ShownCode(session: Option<GameSession>): string
  {
    if session.Some? then session.value.id else ""
  }

  class GameLobbyViewModel {
    var gameSession: Option<GameSession>
    var isLoading: bool
    var errorMessage: string
    var isConnected: bool
    var gameStarted: bool
    /** The session code the value listener is attached to (`sessionListener`). */
    var listeningTo: Option<string>
    const currentUser: User
    const store: Store

    /** `init(user:)` */
    constructor (user: User, store: Store)
      ensures currentUser == user && this.store == store
      ensures gameSession.None? && !isLoading && errorMessage == "" && !isConnected && !gameStarted
      ensures listeningTo.None?
    {
      currentUser := user;
      this.store := store;
      gameSession := None;
      isLoading := false;
      errorMessage := "";
      isConnected := false;
      gameStarted := false;
      listeningTo := None;
    }

    /** `cleanup`: detach the listener and forget the session. */
    method Cleanup()
      modifies this`listeningTo, this`gameSession, this`isConnected, this`gameStarted
      ensures listeningTo.None? && gameSession.None? && !isConnected && !gameStarted
    {
      listeningTo := None;
      gameSession := None;
      isConnected := false;
      gameStarted := false;
    }

    /**
     * `createGame`: stores a new session under a generated code with the
     * user as host and only player; on success shows it and listens to it.
     */
    method CreateGame(codeDraws: seq<nat>, now: int, failure: Option<string>)
      modifies this`isLoading, this`errorMessage, this`gameSession, this`listeningTo, this`isConnected, store
      ensures var session := NewSession(GameCode(codeDraws), currentUser.id, PlayerFor(currentUser, now), now);
        && store.log == old(store.log) + [SetAt(SessionPath(session.id), Map(SessionToDict(session)))]
        && store.root == Commit(old(store.root), SetAt(SessionPath(session.id), Map(SessionToDict(session))), failure)
        && !isLoading
        && (failure.Some? ==>
          && errorMessage == "Failed to create game: " + failure.value
          && gameSession == old(gameSession) && listeningTo == old(listeningTo) && isConnected == old(isConnected))
        && (failure.None? ==>
          && errorMessage == ""
          && gameSession == Some(session) && listeningTo == Some(session.id) && isConnected)
    {
      isLoading := true;
      errorMessage := "";
      var gameCode := GameCode(codeDraws);
      var hostPlayer := PlayerFor(currentUser, now);
      var session := NewSession(gameCode, currentUser.id, hostPlayer, now);
      store.Set(SessionPath(gameCode), Map(SessionToDict(session)), failure);
      if failure.Some? {
        errorMessage := "Failed to create game: " + failure.value;
        isLoading := false;
      } else {
        gameSession := Some(session);
        listeningTo := Some(gameCode);
        isLoading := false;
        isConnected := true;
      }
    }

    /**
     * `joinGame`'s single read of `sessions/{CODE}` and the checks its
     * completion makes, in order, before anything is written.
     */
    method CheckJoin(code: string, e: Entropy) returns (c: JoinCheck)
      requires code != ""
      ensures c == JoinDecision(code, store.root, currentUser.id, e)
    {
      var snapshot := store.Read(SessionPath(Upper(code)));
      if snapshot.None? {
        return NotFound;
      }
      var decoded := DecodeSession(snapshot.value, e);
      if decoded.None? {
        return InvalidData;
      }
      var session := decoded.value;
      if session.gameStarted {
        return AlreadyStarted;
      }
      if currentUser.id in session.players {
        return AlreadyIn;
      }
      return CanJoin(session);
    }

    /**
     * `joinGame(code:)`: looks the uppercased code up once and, when every
     * check passes, writes only the user's player entry. On success the
     * session shown is the one read before the write, without the user.
     */
    method JoinGame(code: string, now: int, e: Entropy, failure: Option<string>) returns (c: JoinCheck)
      modifies this`isLoading, this`errorMessage, this`gameSession, this`listeningTo, this`isConnected, store
      ensures c == JoinDecision(code, old(store.root), currentUser.id, e)
      ensures !c.CanJoin? ==> unchanged(store)
      ensures c.CanJoin? ==> store.log == old(store.log) + [JoinWrite(code, currentUser, now)]
      ensures c.CanJoin? ==> store.root == Commit(old(store.root), JoinWrite(code, currentUser, now), failure)
      ensures errorMessage == if !c.CanJoin? then JoinMessage(c)
                              else if failure.Some? then "Failed to join game: " + failure.value
                              else ""
      ensures isLoading == (c.EmptyCode? && old(isLoading))
      ensures gameSession == if c.CanJoin? && failure.None? then Some(c.session) else old(gameSession)
      ensures listeningTo == if c.CanJoin? && failure.None? then Some(Upper(code)) else old(listeningTo)
      ensures isConnected == ((c.CanJoin? && failure.None?) || old(isConnected))
    {
      if code == "" {
        errorMessage := "Please enter a game code";
        return EmptyCode;
      }
      isLoading := true;
      errorMessage := "";
      c := CheckJoin(code, e);
      if !c.CanJoin? {
        errorMessage := JoinMessage(c);
        isLoading := false;
        return;
      }
      AddPlayer(code, c.session, now, failure);
    }

    /**
     * The second half of `joinGame(code:)`: the write of the user's player
     * entry and its completion, which shows `session` on success.
     */
    method AddPlayer(code: string, session: GameSession, now: int, failure: Option<string>)
      modifies this`isLoading, this`errorMessage, this`gameSession, this`listeningTo, this`isConnected, store
      ensures store.log == old(store.log) + [JoinWrite(code, currentUser, now)]
      ensures store.root == Commit(old(store.root), JoinWrite(code, currentUser, now), failure)
      ensures errorMessage == if failure.Some? then "Failed to join game: " + failure.value else old(errorMessage)
      ensures !isLoading
      ensures gameSession == if failure.None? then Some(session) else old(gameSession)
      ensures listeningTo == if failure.None? then Some(Upper(code)) else old(listeningTo)
      ensures isConnected == (failure.None? || old(isConnected))
    {
      var write := JoinWrite(code, currentUser, now);
      store.Set(write.path, write.value, failure);
      if failure.Some? {
        errorMessage := "Failed to join game: " + failure.value;
        isLoading := false;
      } else {
        gameSession := Some(session);
        listeningTo := Some(Upper(code));
        isLoading := false;
        isConnected := true;
      }
    }

    /**
     * `startGame`: by the host, deals a round, marks the session started and
     * writes it whole. `order` is the order in which the players' keys were
     * visited. Swift `startGame` traps on `first!` when the host finds no players.
     */
    method StartGame(draws: seq<nat>, orderDraws: seq<nat>, failure: Option<string>)
      returns (ghost order: seq<string>)
      requires HostedBy(gameSession, currentUser.id) ==> |gameSession.value.players| > 0
      modifies this`errorMessage, store
      ensures HostedBy(gameSession, currentUser.id) ==> EnumeratesKeys(gameSession.value.players, order) && order != []
      ensures var step := StartGameStep(gameSession, currentUser.id, order, draws, orderDraws);
        && (step.Rejected? ==> errorMessage == step.message && unchanged(store))
        && (step.Accepted? ==>
          && store.log == old(store.log) + [SetAt(SessionPath(step.value.id), Map(SessionToDict(step.value)))]
          && store.root == Commit(old(store.root), SetAt(SessionPath(step.value.id), Map(SessionToDict(step.value))), failure)
          && errorMessage == (if failure.Some? then "Failed to start game: " + failure.value else old(errorMessage)))
    {
      order := [];
      if gameSession.None? || gameSession.value.hostId != currentUser.id {
        errorMessage := "Only the host can start the game";
        return;
      }
      var session := gameSession.value;
      var playerIDs := KeysInSomeOrder(session.players);
      order := playerIDs;
      var deal := DealFrom(playerIDs, draws);
      var gameState := NewGameState(deal.answererID, deal.guesserIDs, orderDraws);
      var roles := AssignRoles(session.playerRoles, playerIDs, deal.answererID);
      var updated := session.(gameState := Some(gameState), playerRoles := roles);
      updated := updated.(gameStarted := true);
      store.Set(SessionPath(session.id), Map(SessionToDict(updated)), failure);
      if failure.Some? {
        errorMessage := "Failed to start game: " + failure.value;
      }
    }

    /** `leaveGame`: removes only the user's player entry, then cleans up whatever the write reports. */
    method LeaveGame(failure: Option<string>)
      modifies this`listeningTo, this`gameSession, this`isConnected, this`gameStarted, store
      ensures old(gameSession).None? ==>
        && unchanged(store) && gameSession == old(gameSession) && listeningTo == old(listeningTo)
        && isConnected == old(isConnected) && gameStarted == old(gameStarted)
      ensures old(gameSession).Some? ==>
        var w := RemoveAt(PlayerPath(old(gameSession).value.id, currentUser.id));
        && store.log == old(store.log) + [w]
        && store.root == Commit(old(store.root), w, failure)
        && listeningTo.None? && gameSession.None? && !isConnected && !gameStarted
    {
      if gameSession.None? {
        return;
      }
      store.Remove(PlayerPath(gameSession.value.id, currentUser.id), failure);
      Cleanup();
    }

    /**
     * The value listener's body for one snapshot of the joined session
     * (`None` when nothing is stored there).
     */
    method OnSnapshot(snapshot: Option<Value>, e: Entropy)
      modifies this`errorMessage, this`listeningTo, this`gameSession, this`isConnected, this`gameStarted
      ensures snapshot.None? ==>
        && errorMessage == "Game session ended"
        && listeningTo.None? && gameSession.None? && !isConnected && !gameStarted
      ensures snapshot.Some? && SessionFromValue(snapshot.value, e).None? ==>
        && errorMessage == "Invalid session data"
        && listeningTo == old(listeningTo) && gameSession == old(gameSession)
        && isConnected == old(isConnected) && gameStarted == old(gameStarted)
      ensures snapshot.Some? && SessionFromValue(snapshot.value, e).Some? &&
              currentUser.id !in SessionFromValue(snapshot.value, e).value.players ==>
        && errorMessage == "You have been removed from the game"
        && listeningTo.None? && gameSession.None? && !isConnected && !gameStarted
      ensures snapshot.Some? && SessionFromValue(snapshot.value, e).Some? &&
              currentUser.id in SessionFromValue(snapshot.value, e).value.players ==>
        && errorMessage == old(errorMessage)
        && gameSession == SessionFromValue(snapshot.value, e)
        && gameStarted == (old(gameStarted) || gameSession.value.gameStarted)
        && listeningTo == old(listeningTo) && isConnected == old(isConnected)
    {
      if snapshot.None? {
        errorMessage := "Game session ended";
        Cleanup();
        return;
      }
      var decoded := DecodeSession(snapshot.value, e);
      if decoded.None? {
        errorMessage := "Invalid session data";
        return;
      }
      var session := decoded.value;
      if currentUser.id !in session.players {
        errorMessage := "You have been removed from the game";
        Cleanup();
        return;
      }
      gameSession := Some(session);
      if session.gameStarted && !gameStarted {
        gameStarted := true;
      }
    }
  }
}
