/**
 * Dealing a round: the shuffle that picks the answerer, the initial game
 * state, and the `for playerID in playerIDs` loop that writes each dealt
 * player's role. The lobby's `startGame` and the gameplay screen's
 * `startGameplay` and `playAgain` all deal this way.
 */
module RoleAssignment {
  import opened Wrappers
  import opened Randomness
  import opened GameplayModels
  import opened GameSessionModel

  /** `playerID == answererID ? .answerer : .guesser` */
  function RoleFor(playerID: string, answererID: string): (r: PlayerRole)
    ensures r == Answerer <==> playerID == answererID
  {
    if playerID == answererID then Answerer else Guesser
  }

  /**
   * The roles after the loop over `playerIDs`: every dealt id gets its role,
   * and entries for ids that are not dealt (players who have left) stay as
   * they were, because `assignRoles` never clears the dictionary.
   */
  function DealtRoles(roles: map<string, PlayerRole>, playerIDs: seq<string>, answererID: string)
    : (r: map<string, PlayerRole>)
    ensures forall k :: k in r <==> k in roles || k in playerIDs
    ensures forall k :: k in playerIDs ==> r[k] == RoleFor(k, answererID)
    ensures forall k :: k in roles && k !in playerIDs ==> r[k] == roles[k]
    decreases |playerIDs|
  {
    if playerIDs == [] then roles
    else DealtRoles(roles[playerIDs[0] := RoleFor(playerIDs[0], answererID)], playerIDs[1..], answererID)
  }

  /** The loop itself. */
  method AssignRoles(roles: map<string, PlayerRole>, playerIDs: seq<string>, answererID: string)
    returns (r: map<string, PlayerRole>)
    ensures r == DealtRoles(roles, playerIDs, answererID)
  {
    r := roles;
    for i := 0 to |playerIDs|
      invariant DealtRoles(r, playerIDs[i..], answererID) == DealtRoles(roles, playerIDs, answererID)
    {
      assert playerIDs[i..][1..] == playerIDs[i + 1..];
      r := r[playerIDs[i] := RoleFor(playerIDs[i], answererID)];
    }
  }

  /** `Array(session.players.keys)`: the keys, in the dictionary's own order. */
  method KeysInSomeOrder(players: map<string, GamePlayer>) returns (ids: seq<string>)
    ensures EnumeratesKeys(players, ids)
    ensures |ids| == |players|
  {
    ids := [];
    var todo := players.Keys;
    while todo != {}
      invariant todo <= players.Keys
      invariant forall k :: k in ids <==> k in players && k !in todo
      invariant Distinct(ids)
      invariant |ids| + |todo| == |players|
      decreases todo
    {
      var key :| key in todo;
      ids := ids + [key];
      todo := todo - {key};
    }
  }

  datatype Deal = Deal(answererID: string, guesserIDs: seq<string>)

  /** `shuffled()`, then `first!` is the answerer and `dropFirst()` the guessers. */
  function DealFrom(playerIDs: seq<string>, draws: seq<nat>): (d: Deal)
    requires playerIDs != []
    ensures multiset([d.answererID] + d.guesserIDs) == multiset(playerIDs)
  {
    var order := Shuffled(playerIDs, draws);
    assert order == [order[0]] + order[1..];
    Deal(order[0], order[1..])
  }

  /**
   * Dealing a duplicate-free list of ids makes one of them the answerer and
   * the rest, each once, the guessers.
   */
  lemma DealSplitsPlayers(playerIDs: seq<string>, draws: seq<nat>)
    requires playerIDs != [] && Distinct(playerIDs)
    ensures var d := DealFrom(playerIDs, draws);
      && d.answererID in playerIDs
      && d.answererID !in d.guesserIDs
      && Distinct(d.guesserIDs)
      && (forall k :: k in d.guesserIDs <==> k in playerIDs && k != d.answererID)
  {
    var d := DealFrom(playerIDs, draws);
    var order := Shuffled(playerIDs, draws);
    ShuffledDistinct(playerIDs, draws);
    assert order == [d.answererID] + d.guesserIDs;
    assert d.answererID !in d.guesserIDs;
    assert Distinct(d.guesserIDs) by {
      forall i, j | 0 <= i < j < |d.guesserIDs| ensures d.guesserIDs[i] != d.guesserIDs[j] {
        assert d.guesserIDs[i] == order[i + 1] && d.guesserIDs[j] == order[j + 1];
      }
    }
    forall k ensures k in d.guesserIDs <==> k in playerIDs && k != d.answererID {
      assert k in playerIDs <==> k in multiset(playerIDs);
      assert k in d.guesserIDs <==> k in multiset(d.guesserIDs);
    }
    assert d.answererID in multiset(playerIDs);
  }

  /**
   * The session after dealing a round over `playerIDs`: a new game state for
   * the dealt answerer and guessers, and the dealt roles.
   */
  function DealtSession(s: GameSession, playerIDs: seq<string>, draws: seq<nat>, orderDraws: seq<nat>)
    : (r: GameSession)
    requires playerIDs != []
    ensures r == s.(gameState := r.gameState, playerRoles := r.playerRoles)
    ensures r.gameState.Some?
  {
    var d := DealFrom(playerIDs, draws);
    s.(gameState := Some(NewGameState(d.answererID, d.guesserIDs, orderDraws)),
       playerRoles := DealtRoles(s.playerRoles, playerIDs, d.answererID))
  }

  /**
   * Dealing over the players' keys: the new game state's answerer is a
   * player; among the players exactly that one has role `answerer` and
   * every other one `guesser`; the turn order holds exactly the other
   * players, once each; the round starts in `setup` with no questions.
   */
  lemma DealtSessionRoles(s: GameSession, playerIDs: seq<string>, draws: seq<nat>, orderDraws: seq<nat>)
    requires EnumeratesKeys(s.players, playerIDs) && playerIDs != []
    ensures var r := DealtSession(s, playerIDs, draws, orderDraws);
      var g := r.gameState.value;
      && g.answererID in s.players
      && (forall k :: k in s.players ==> k in r.playerRoles && (r.playerRoles[k] == Answerer <==> k == g.answererID))
      && (forall k :: k in s.players ==> (r.playerRoles[k] == Guesser <==> k != g.answererID))
      && (forall k :: k in g.turnOrder <==> k in s.players && k != g.answererID)
      && Distinct(g.turnOrder)
      && g.answererID !in g.turnOrder
      && g.phase == Setup && g.questions == [] && g.winnerID.None? && g.roundNumber == 1
  {
    var d := DealFrom(playerIDs, draws);
    DealSplitsPlayers(playerIDs, draws);
    var g := NewGameState(d.answererID, d.guesserIDs, orderDraws);
    forall k ensures k in g.turnOrder <==> k in d.guesserIDs {
      assert k in g.turnOrder <==> k in multiset(g.turnOrder);
      assert k in d.guesserIDs <==> k in multiset(d.guesserIDs);
    }
    assert Distinct(g.turnOrder) by {
      MultisetPreservesDistinct(d.guesserIDs, g.turnOrder);
    }
  }

  /** A list with the same multiset as a duplicate-free list is duplicate-free. */
  lemma MultisetPreservesDistinct(xs: seq<string>, ys: seq<string>)
    requires Distinct(xs) && multiset(ys) == multiset(xs)
    ensures Distinct(ys)
  {
    forall i, j | 0 <= i < j < |ys| ensures ys[i] != ys[j] {
      if ys[i] == ys[j] {
        assert ys == ys[..i] + [ys[i]] + ys[i + 1..j] + [ys[j]] + ys[j + 1..];
        assert multiset(ys)[ys[i]] >= 2;
        DistinctOnce(xs, ys[i]);
        assert false;
      }
    }
  }

  lemma {:induction false} DistinctOnce(xs: seq<string>, x: string)
    requires Distinct(xs)
    ensures multiset(xs)[x] <= 1
  {
    if xs != [] {
      var rest := xs[1..];
      assert xs == [xs[0]] + rest;
      assert Distinct(rest) by {
        forall i, j | 0 <= i < j < |rest| ensures rest[i] != rest[j] {
          assert rest[i] == xs[i + 1] && rest[j] == xs[j + 1];
        }
      }
      DistinctOnce(rest, x);
      if x == xs[0] {
        assert x !in rest by {
          forall i | 0 <= i < |rest| ensures rest[i] != x {
            assert rest[i] == xs[i + 1];
          }
        }
      }
    }
  }

  /**
   * Roles of ids that are no longer players survive a deal: a guesser who
   * left is still listed, and one who was the answerer still reads as an
   * answerer next to the newly dealt one.
   */
  lemma StaleRolesSurvive(s: GameSession, playerIDs: seq<string>, draws: seq<nat>, orderDraws: seq<nat>, gone: string)
    requires EnumeratesKeys(s.players, playerIDs) && playerIDs != []
    requires gone in s.playerRoles && gone !in s.players
    ensures DealtSession(s, playerIDs, draws, orderDraws).playerRoles[gone] == s.playerRoles[gone]
  {
  }
}
