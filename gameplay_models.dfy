/**
 * The round's state (`GameState`) with its questions and reactions, the turn
 * rules applied to it, and its stored form. Swift's `mutating` methods on this
 * value type are functions from the old value to the new one.
 */
module GameplayModels {
  import opened Wrappers
  import opened KeyValue
  import opened Ascii
  import opened Randomness

  datatype PlayerRole = Answerer | Guesser

  /** `PlayerRole.rawValue` */
  function RoleRaw(r: PlayerRole): string
  {
    match r
    case Answerer => "answerer"
    case Guesser => "guesser"
  }

  /** `PlayerRole(rawValue:)` */
  function RoleFromRaw(s: string): Option<PlayerRole>
  {
    if s == "answerer" then Some(Answerer)
    else if s == "guesser" then Some(Guesser)
    else None
  }

  lemma RoleRawRoundTrip(r: PlayerRole, s: string)
    ensures RoleFromRaw(RoleRaw(r)) == Some(r)
    ensures RoleFromRaw(s) == Some(r) <==> s == RoleRaw(r)
  {
  }

  datatype GamePhase = Setup | Questioning | GameOver

  /** `GamePhase.rawValue` */
  function PhaseRaw(p: GamePhase): string
  {
    match p
    case Setup => "setup"
    case Questioning => "questioning"
    case GameOver => "gameOver"
  }

  /** `GamePhase(rawValue:)` */
  function PhaseFromRaw(s: string): Option<GamePhase>
  {
    if s == "setup" then Some(Setup)
    else if s == "questioning" then Some(Questioning)
    else if s == "gameOver" then Some(GameOver)
    else None
  }

  lemma PhaseRawRoundTrip(p: GamePhase, s: string)
    ensures PhaseFromRaw(PhaseRaw(p)) == Some(p)
    ensures PhaseFromRaw(s) == Some(p) <==> s == PhaseRaw(p)
  {
  }

  datatype Question = Question(
    id: string,
    askerID: string,
    askerName: string,
    question: string,
    answer: string,
    isAnswered: bool,
    timestamp: int)

  datatype EmojiReaction = EmojiReaction(
    id: string,
    playerID: string,
    playerName: string,
    emoji: string,
    timestamp: int)

  datatype GameState = GameState(
    answererID: string,
    category: string,
    secretWord: string,
    currentTurnPlayerID: string,
    phase: GamePhase,
    turnOrder: seq<string>,
    questions: seq<Question>,
    reactions: seq<EmojiReaction>,
    winnerID: Option<string>,
    roundNumber: int,
    turnStartTime: Option<int>,
    turnTimeLimit: int)

  /** `Question(askerID:askerName:question:)`; `id` stands for `UUID()` and `now` for `Date()`. */
  function NewQuestion(id: string, askerID: string, askerName: string, text: string, now: int): (q: Question)
    ensures q.id == id && q.askerID == askerID && q.askerName == askerName && q.question == text
    ensures q.answer == "" && !q.isAnswered && q.timestamp == now
  {
    Question(id, askerID, askerName, text, "", false, now)
  }

  /**
   * `GameState(answererID:guesserIDs:)`. The turn order is `guesserIDs`
   * shuffled by `draws`, but the first turn goes to the first of the
   * UN-shuffled `guesserIDs`.
   */
  function NewGameState(answererID: string, guesserIDs: seq<string>, draws: seq<nat>): (g: GameState)
    ensures g.answererID == answererID && g.category == "" && g.secretWord == ""
    ensures g.currentTurnPlayerID == if guesserIDs == [] then "" else guesserIDs[0]
    ensures g.phase == Setup
    ensures multiset(g.turnOrder) == multiset(guesserIDs)
    ensures g.questions == [] && g.reactions == [] && g.winnerID == None
    ensures g.roundNumber == 1 && g.turnStartTime == None && g.turnTimeLimit == 30
  {
    GameState(answererID, "", "", if guesserIDs == [] then "" else guesserIDs[0], Setup,
              Shuffled(guesserIDs, draws), [], [], None, 1, None, 30)
  }

  /** The first turn belongs to a player of the turn order (when there are guessers). */
  lemma NewGameStateFirstTurn(answererID: string, guesserIDs: seq<string>, draws: seq<nat>)
    requires guesserIDs != []
    ensures NewGameState(answererID, guesserIDs, draws).currentTurnPlayerID
            in NewGameState(answererID, guesserIDs, draws).turnOrder
  {
    var g := NewGameState(answererID, guesserIDs, draws);
    assert guesserIDs[0] in multiset(guesserIDs);
    assert guesserIDs[0] in multiset(g.turnOrder);
  }

  // ----- game flow helpers -----

  /** `isAnswererTurn` */
  function IsAnswererTurn(g: GameState): (r: bool)
    ensures r <==> g.phase == Setup
  {
    g.phase == Setup
  }

  /** `latestQuestion` */
  function LatestQuestion(g: GameState): (r: Option<Question>)
    ensures r.None? <==> g.questions == []
    ensures r.Some? ==> r.value == g.questions[|g.questions| - 1]
  {
    if g.questions == [] then None else Some(g.questions[|g.questions| - 1])
  }

  /** `questions.filter { !$0.isAnswered }` */
  function Unanswered(qs: seq<Question>): (r: seq<Question>)
    ensures |r| <= |qs|
    ensures forall i :: 0 <= i < |r| ==> !r[i].isAnswered && r[i] in qs
    ensures forall i :: 0 <= i < |qs| && !qs[i].isAnswered ==> qs[i] in r
  {
    if qs == [] then []
    else if qs[0].isAnswered then Unanswered(qs[1..])
    else [qs[0]] + Unanswered(qs[1..])
  }

  /** `unansweredQuestions` */
  function UnansweredQuestions(g: GameState): seq<Question>
  {
    Unanswered(g.questions)
  }

  lemma {:induction false} UnansweredEmptyIffAllAnswered(qs: seq<Question>)
    ensures Unanswered(qs) == [] <==> forall i :: 0 <= i < |qs| ==> qs[i].isAnswered
  {
    if qs != [] && Unanswered(qs) == [] {
      assert qs[0].isAnswered;
    }
  }

  /** Index of the first element of `order` equal to `id`, if any (`firstIndex(of:)`). */
  function FirstIndex(order: seq<string>, id: string): (r: Option<nat>)
    ensures r.None? <==> id !in order
    ensures r.Some? ==> r.value < |order| && order[r.value] == id
    ensures r.Some? ==> forall j :: 0 <= j < r.value ==> order[j] != id
  {
    if id !in order then None else Some(IndexOf(order, id))
  }

  /**
   * `nextTurn()`: the turn passes to the player after the current one in
   * the turn order, wrapping round; nothing happens when the turn order is
   * empty or does not contain the current player.
   */
  function NextTurn(g: GameState): (r: GameState)
    ensures g.turnOrder == [] || g.currentTurnPlayerID !in g.turnOrder ==> r == g
    ensures g.currentTurnPlayerID in g.turnOrder ==>
      var i := IndexOf(g.turnOrder, g.currentTurnPlayerID);
      r == g.(currentTurnPlayerID := g.turnOrder[if i + 1 == |g.turnOrder| then 0 else i + 1])
  {
    if g.turnOrder == [] then g
    else
      var i := FirstIndex(g.turnOrder, g.currentTurnPlayerID);
      if i.Some? then
        WrapNext(i.value, |g.turnOrder|);
        g.(currentTurnPlayerID := g.turnOrder[(i.value + 1) % |g.turnOrder|])
      else g
  }

  /** `nextTurn()` changes the current turn and no other field. */
  lemma NextTurnOnlyMovesTurn(g: GameState)
    ensures NextTurn(g) == g.(currentTurnPlayerID := NextTurn(g).currentTurnPlayerID)
  {
    if g.currentTurnPlayerID in g.turnOrder {
      var i := IndexOf(g.turnOrder, g.currentTurnPlayerID);
      assert NextTurn(g) == g.(currentTurnPlayerID := g.turnOrder[if i + 1 == |g.turnOrder| then 0 else i + 1]);
    }
  }

  /** Where `nextTurn()` moves the turn depends only on the turn order and the current turn. */
  lemma NextTurnReadsOnlyTurn(g: GameState, h: GameState)
    requires g.turnOrder == h.turnOrder && g.currentTurnPlayerID == h.currentTurnPlayerID
    ensures NextTurn(g).currentTurnPlayerID == NextTurn(h).currentTurnPlayerID
  {
  }

  /** `nextTurn()` applied `k` times. */
  function NextTurnTimes(g: GameState, k: nat): GameState
  {
    if k == 0 then g else NextTurn(NextTurnTimes(g, k - 1))
  }

  lemma IndexOfDistinct(order: seq<string>, i: nat)
    requires Distinct(order) && i < |order|
    ensures IndexOf(order, order[i]) == i
  {
    var j := IndexOf(order, order[i]);
    assert order[j] == order[i];
  }

  lemma WrapNext(i: nat, n: nat)
    requires i < n
    ensures (i + 1) % n == if i + 1 == n then 0 else i + 1
  {
  }

  /** From the player at position `j` of a duplicate-free turn order, the turn moves to position `j + 1`, wrapping round. */
  lemma NextTurnAt(g: GameState, j: nat)
    requires Distinct(g.turnOrder) && j < |g.turnOrder|
    ensures NextTurn(g.(currentTurnPlayerID := g.turnOrder[j])) ==
            g.(currentTurnPlayerID := g.turnOrder[if j + 1 == |g.turnOrder| then 0 else j + 1])
  {
    IndexOfDistinct(g.turnOrder, j);
  }

  /** The position `k` places after position `i` in a cycle of `n` positions (for `i < n` and `k <= n`). */
  function Along(n: nat, i: nat, k: nat): nat { if i + k < n then i + k else i + k - n }

  /** One more turn moves the turn one more place along. */
  lemma TurnsStep(g: GameState, i: nat, k: nat)
    requires Distinct(g.turnOrder) && i < |g.turnOrder| && 0 < k <= |g.turnOrder|
    requires NextTurnTimes(g, k - 1) == g.(currentTurnPlayerID := g.turnOrder[Along(|g.turnOrder|, i, k - 1)])
    ensures NextTurnTimes(g, k) == g.(currentTurnPlayerID := g.turnOrder[Along(|g.turnOrder|, i, k)])
  {
    var j := Along(|g.turnOrder|, i, k - 1);
    NextTurnAt(g, j);
    assert (if j + 1 == |g.turnOrder| then 0 else j + 1) == Along(|g.turnOrder|, i, k);
  }

  /** `k` turns from position `i` of a duplicate-free turn order, within one cycle. */
  lemma {:induction false} TurnsFrom(g: GameState, i: nat, k: nat)
    requires Distinct(g.turnOrder) && i < |g.turnOrder| && g.turnOrder[i] == g.currentTurnPlayerID
    requires k <= |g.turnOrder|
    ensures NextTurnTimes(g, k) == g.(currentTurnPlayerID := g.turnOrder[Along(|g.turnOrder|, i, k)])
  {
    if k == 0 {
      assert g.(currentTurnPlayerID := g.turnOrder[i]) == g;
    } else {
      TurnsFrom(g, i, k - 1);
      TurnsStep(g, i, k);
    }
  }

  /**
   * Within one cycle, `k` turns move the turn `k` places along a
   * duplicate-free turn order, wrapping round once at the end.
   */
  lemma {:induction false} NextTurnTimesMoves(g: GameState, k: nat)
    requires Distinct(g.turnOrder) && g.currentTurnPlayerID in g.turnOrder
    requires k <= |g.turnOrder|
    ensures NextTurnTimes(g, k) == g.(currentTurnPlayerID := g.turnOrder[Along(|g.turnOrder|, IndexOf(g.turnOrder, g.currentTurnPlayerID), k)])
  {
    TurnsFrom(g, IndexOf(g.turnOrder, g.currentTurnPlayerID), k);
  }

  /** A full cycle of turns hands the turn back to the player who had it. */
  lemma FullCycleReturns(g: GameState)
    requires Distinct(g.turnOrder) && g.currentTurnPlayerID in g.turnOrder
    ensures NextTurnTimes(g, |g.turnOrder|) == g
  {
    var i := IndexOf(g.turnOrder, g.currentTurnPlayerID);
    NextTurnTimesMoves(g, |g.turnOrder|);
    assert g.(currentTurnPlayerID := g.turnOrder[i]) == g;
  }

  /** `addQuestion(_:)` */
  function AddQuestion(g: GameState, q: Question): (r: GameState)
    ensures |r.questions| == |g.questions| + 1
    ensures r.questions[..|g.questions|] == g.questions
    ensures LatestQuestion(r) == Some(q)
    ensures r == g.(questions := r.questions)
  {
    g.(questions := g.questions + [q])
  }

  /** Index of the first question with id `id`, if any (`firstIndex(where:)`). */
  function FindQuestion(qs: seq<Question>, id: string): (r: Option<nat>)
    ensures r.Some? ==> r.value < |qs| && qs[r.value].id == id
    ensures r.Some? ==> forall j :: 0 <= j < r.value ==> qs[j].id != id
    ensures r.None? ==> forall j :: 0 <= j < |qs| ==> qs[j].id != id
  {
    if qs == [] then None
    else if qs[0].id == id then Some(0)
    else
      var rest := FindQuestion(qs[1..], id);
      if rest.Some? then Some(rest.value + 1) else None
  }

  /**
   * `answerQuestion(questionID:answer:)`: the first question with that id is
   * answered; without one, nothing changes.
   */
  function AnswerQuestion(g: GameState, questionID: string, answer: string): (r: GameState)
    ensures r == g.(questions := r.questions)
    ensures |r.questions| == |g.questions|
    ensures (forall j :: 0 <= j < |g.questions| ==> g.questions[j].id != questionID) ==> r == g
    ensures forall i :: 0 <= i < |g.questions| && g.questions[i].id == questionID &&
                        (forall j :: 0 <= j < i ==> g.questions[j].id != questionID) ==>
      r.questions[i] == g.questions[i].(answer := answer, isAnswered := true) &&
      forall j :: 0 <= j < |g.questions| && j != i ==> r.questions[j] == g.questions[j]
  {
    var i := FindQuestion(g.questions, questionID);
    if i.Some? then
      g.(questions := g.questions[i.value := g.questions[i.value].(answer := answer, isAnswered := true)])
    else g
  }

  /** The comparison form of a guess or of the secret: lowercased, then trimmed. */
  function GuessKey(s: string): string
  {
    Trim(Lower(s))
  }

  /** `isCorrectGuess(_:)` */
  function IsCorrectGuess(g: GameState, guess: string): bool
  {
    GuessKey(guess) == GuessKey(g.secretWord)
  }

  /** Letter case does not matter. */
  lemma GuessIgnoresCase(g: GameState, guess: string)
    ensures IsCorrectGuess(g, Upper(guess)) == IsCorrectGuess(g, guess)
    ensures IsCorrectGuess(g, Lower(guess)) == IsCorrectGuess(g, guess)
  {
    LowerUpper(guess);
    assert Lower(Lower(guess)) == Lower(guess);
  }

  /** Leading and trailing whitespace do not matter. */
  lemma GuessIgnoresSurroundingWhitespace(g: GameState, ws1: string, guess: string, ws2: string)
    requires AllWhitespace(ws1) && AllWhitespace(ws2)
    ensures IsCorrectGuess(g, ws1 + guess + ws2) == IsCorrectGuess(g, guess)
  {
    LowerAppend(ws1, guess);
    LowerAppend(ws1 + guess, ws2);
    LowerOfWhitespace(ws1);
    LowerOfWhitespace(ws2);
    TrimIgnoresSurroundingWhitespace(ws1, Lower(guess), ws2);
  }

  /** Swapping the guess and the secret gives the same verdict. */
  lemma GuessSymmetric(g: GameState, guess: string)
    ensures IsCorrectGuess(g, guess) == IsCorrectGuess(g.(secretWord := guess), g.secretWord)
  {
  }

  /** Whitespace inside the word does matter: "ele phant" does not guess "elephant". */
  lemma GuessKeepsInnerWhitespace(g: GameState)
    requires g.secretWord == "elephant"
    ensures !IsCorrectGuess(g, "ele phant")
    ensures IsCorrectGuess(g, "  Elephant ")
  {
    assert Lower("ele phant") == "ele phant";
    assert TrimStart("ele phant") == "ele phant";
    assert TrimEnd("ele phant") == "ele phant";
    assert Lower("elephant") == "elephant";
    assert TrimStart("elephant") == "elephant";
    assert TrimEnd("elephant") == "elephant";
    assert |"ele phant"| != |"elephant"|;
    GuessIgnoresSurroundingWhitespace(g, "  ", "Elephant", " ");
    assert "  " + "Elephant" + " " == "  Elephant ";
    assert Lower("Elephant") == "elephant";
  }

  // ----- stored form -----

  /** `Question.toDictionary()` */
  function QuestionToDict(q: Question): Dict
  {
    map[
      "id" := Str(q.id),
      "askerID" := Str(q.askerID),
      "askerName" := Str(q.askerName),
      "question" := Str(q.question),
      "answer" := Str(q.answer),
      "isAnswered" := Bool(q.isAnswered),
      "timestamp" := Num(q.timestamp)
    ]
  }

  /**
   * `Question.fromDictionary(_:)`: the stored id must be a string but is
   * thrown away; the question gets `freshId` (a new `UUID()`).
   */
  function QuestionFromDict(d: Dict, freshId: string): (r: Option<Question>)
    ensures r.Some? ==> r.value.id == freshId
  {
    var askerID := GetStr(d, "askerID");
    var askerName := GetStr(d, "askerName");
    var text := GetStr(d, "question");
    var answer := GetStr(d, "answer");
    var isAnswered := GetBool(d, "isAnswered");
    var timestamp := GetNum(d, "timestamp");
    if GetStr(d, "id").None? || askerID.None? || askerName.None? || text.None? ||
       answer.None? || isAnswered.None? || timestamp.None? then None
    else
      var q := NewQuestion(freshId, askerID.value, askerName.value, text.value, 0);
      Some(q.(answer := answer.value, isAnswered := isAnswered.value, timestamp := timestamp.value))
  }

  /** `EmojiReaction.toDictionary()` */
  function ReactionToDict(r: EmojiReaction): Dict
  {
    map[
      "id" := Str(r.id),
      "playerID" := Str(r.playerID),
      "playerName" := Str(r.playerName),
      "emoji" := Str(r.emoji),
      "timestamp" := Num(r.timestamp)
    ]
  }

  /** `EmojiReaction.fromDictionary(_:)` */
  function ReactionFromDict(d: Dict): Option<EmojiReaction>
  {
    var id := GetStr(d, "id");
    var playerID := GetStr(d, "playerID");
    var playerName := GetStr(d, "playerName");
    var emoji := GetStr(d, "emoji");
    var timestamp := GetNum(d, "timestamp");
    if id.None? || playerID.None? || playerName.None? || emoji.None? || timestamp.None? then None
    else Some(EmojiReaction(id.value, playerID.value, playerName.value, emoji.value, timestamp.value))
  }

  /** A reaction survives its stored form unchanged. */
  lemma ReactionRoundTrip(r: EmojiReaction)
    ensures ReactionFromDict(ReactionToDict(r)) == Some(r)
  {
  }

  /** A question survives its stored form except for its id, which is freshly minted. */
  lemma QuestionRoundTrip(q: Question, freshId: string)
    ensures QuestionFromDict(QuestionToDict(q), freshId) == Some(q.(id := freshId))
  {
  }

  /** The stored id is ignored: any other string id decodes to the same question. */
  lemma QuestionIgnoresStoredId(d: Dict, a: string, b: string, freshId: string)
    ensures QuestionFromDict(d["id" := Str(a)], freshId) == QuestionFromDict(d["id" := Str(b)], freshId)
  {
  }

  /**
   * `questionsData.compactMap { Question.fromDictionary($0) }`: entries that
   * do not decode are skipped; the `k`-th question that does decode gets the
   * fresh id `uuid(k)`.
   */
  function DecodeQuestions(ds: seq<Dict>, uuid: nat -> string, k: nat): (r: seq<Question>)
    ensures |r| <= |ds|
  {
    if ds == [] then []
    else
      var q := QuestionFromDict(ds[0], uuid(k));
      if q.Some? then [q.value] + DecodeQuestions(ds[1..], uuid, k + 1)
      else DecodeQuestions(ds[1..], uuid, k)
  }

  /** `reactionsData.compactMap { EmojiReaction.fromDictionary($0) }` */
  function DecodeReactions(ds: seq<Dict>): (r: seq<EmojiReaction>)
    ensures |r| <= |ds|
  {
    if ds == [] then []
    else
      var e := ReactionFromDict(ds[0]);
      if e.Some? then [e.value] + DecodeReactions(ds[1..])
      else DecodeReactions(ds[1..])
  }

  /** A malformed question entry is dropped without a trace. */
  lemma {:induction false} MalformedQuestionDropped(a: seq<Dict>, bad: Dict, b: seq<Dict>, uuid: nat -> string, k: nat)
    requires forall id :: QuestionFromDict(bad, id).None?
    ensures DecodeQuestions(a + [bad] + b, uuid, k) == DecodeQuestions(a + b, uuid, k)
  {
    if a == [] {
      assert [bad] + b == [bad] + b;
      assert ([bad] + b)[1..] == b;
      assert a + [bad] + b == [bad] + b && a + b == b;
    } else {
      assert (a + [bad] + b)[0] == a[0] && (a + [bad] + b)[1..] == a[1..] + [bad] + b;
      assert (a + b)[0] == a[0] && (a + b)[1..] == a[1..] + b;
      var q := QuestionFromDict(a[0], uuid(k));
      MalformedQuestionDropped(a[1..], bad, b, uuid, if q.Some? then k + 1 else k);
    }
  }

  /** A malformed reaction entry is dropped without a trace. */
  lemma {:induction false} MalformedReactionDropped(a: seq<Dict>, bad: Dict, b: seq<Dict>)
    requires ReactionFromDict(bad).None?
    ensures DecodeReactions(a + [bad] + b) == DecodeReactions(a + b)
  {
    if a == [] {
      assert ([bad] + b)[1..] == b;
      assert a + [bad] + b == [bad] + b && a + b == b;
    } else {
      assert (a + [bad] + b)[0] == a[0] && (a + [bad] + b)[1..] == a[1..] + [bad] + b;
      assert (a + b)[0] == a[0] && (a + b)[1..] == a[1..] + b;
      MalformedReactionDropped(a[1..], bad, b);
    }
  }

  /** `questions.map { $0.toDictionary() }` */
  function QuestionDicts(qs: seq<Question>): (ds: seq<Dict>)
    ensures |ds| == |qs|
  {
    if qs == [] then [] else [QuestionToDict(qs[0])] + QuestionDicts(qs[1..])
  }

  /** `reactions.map { $0.toDictionary() }` */
  function ReactionDicts(rs: seq<EmojiReaction>): (ds: seq<Dict>)
    ensures |ds| == |rs|
  {
    if rs == [] then [] else [ReactionToDict(rs[0])] + ReactionDicts(rs[1..])
  }

  /** `GameState.toDictionary()`: no winner is stored as "", no turn start as 0. */
  function GameStateToDict(g: GameState): Dict
  {
    map[
      "answererID" := Str(g.answererID),
      "category" := Str(g.category),
      "secretWord" := Str(g.secretWord),
      "currentTurnPlayerID" := Str(g.currentTurnPlayerID),
      "phase" := Str(PhaseRaw(g.phase)),
      "turnOrder" := StrList(g.turnOrder),
      "questions" := DictList(QuestionDicts(g.questions)),
      "reactions" := DictList(ReactionDicts(g.reactions)),
      "winnerID" := Str(g.winnerID.GetOr("")),
      "roundNumber" := Num(g.roundNumber),
      "turnStartTime" := Num(g.turnStartTime.GetOr(0)),
      "turnTimeLimit" := Num(g.turnTimeLimit)
    ]
  }

  /** The randomness a decode consumes: draws for reshuffling, fresh question ids. */
  datatype Entropy = Entropy(draws: seq<nat>, uuid: nat -> string)

  /**
   * `GameState.fromDictionary(_:)`. The state is rebuilt through
   * `GameState(answererID:guesserIDs:)` and its turn order is never
   * reassigned afterwards, so the stored turn order comes back reshuffled.
   * Missing reactions read as none, a missing or non-positive turn start as
   * none, a missing time limit as 30, a missing or "" winner as none.
   */
  function GameStateFromDict(d: Dict, e: Entropy): Option<GameState>
  {
    var answererID := GetStr(d, "answererID");
    var category := GetStr(d, "category");
    var secretWord := GetStr(d, "secretWord");
    var current := GetStr(d, "currentTurnPlayerID");
    var phaseRaw := GetStr(d, "phase");
    var turnOrder := GetStrList(d, "turnOrder");
    var questionsData := GetDictList(d, "questions");
    var roundNumber := GetNum(d, "roundNumber");
    if answererID.None? || category.None? || secretWord.None? || current.None? ||
       phaseRaw.None? || PhaseFromRaw(phaseRaw.value).None? || turnOrder.None? ||
       questionsData.None? || roundNumber.None? then None
    else
      var questions := DecodeQuestions(questionsData.value, e.uuid, 0);
      var winnerID := GetStr(d, "winnerID");
      var reactions := DecodeReactions(GetDictList(d, "reactions").GetOr([]));
      var start := GetNum(d, "turnStartTime").GetOr(0);
      var g := NewGameState(answererID.value, turnOrder.value, e.draws);
      Some(g.(
        category := category.value,
        secretWord := secretWord.value,
        currentTurnPlayerID := current.value,
        phase := PhaseFromRaw(phaseRaw.value).value,
        questions := questions,
        reactions := reactions,
        winnerID := if winnerID == Some("") then None else winnerID,
        roundNumber := roundNumber.value,
        turnStartTime := if start > 0 then Some(start) else None,
        turnTimeLimit := GetNum(d, "turnTimeLimit").GetOr(30)))
  }

  lemma {:induction false} DecodeEncodedQuestions(qs: seq<Question>, uuid: nat -> string, k: nat)
    ensures |DecodeQuestions(QuestionDicts(qs), uuid, k)| == |qs|
    ensures forall i :: 0 <= i < |qs| ==>
      DecodeQuestions(QuestionDicts(qs), uuid, k)[i] == qs[i].(id := uuid(k + i))
  {
    if qs != [] {
      var ds := QuestionDicts(qs);
      assert ds[0] == QuestionToDict(qs[0]) && ds[1..] == QuestionDicts(qs[1..]);
      QuestionRoundTrip(qs[0], uuid(k));
      DecodeEncodedQuestions(qs[1..], uuid, k + 1);
      var rest := DecodeQuestions(ds[1..], uuid, k + 1);
      var all := DecodeQuestions(ds, uuid, k);
      assert all == [qs[0].(id := uuid(k))] + rest;
      forall i | 0 <= i < |qs| ensures all[i] == qs[i].(id := uuid(k + i)) {
        if i > 0 {
          assert all[i] == rest[i - 1];
        }
      }
    }
  }

  lemma {:induction false} DecodeEncodedReactions(rs: seq<EmojiReaction>)
    ensures DecodeReactions(ReactionDicts(rs)) == rs
  {
    if rs != [] {
      ReactionRoundTrip(rs[0]);
      DecodeEncodedReactions(rs[1..]);
      assert rs == [rs[0]] + rs[1..];
    }
  }

  /** What survives storing a round's state and reading it back. */
  predicate SurvivesStorage(g: GameState, r: GameState, e: Entropy)
  {
    && r.answererID == g.answererID
    && r.category == g.category
    && r.secretWord == g.secretWord
    && r.currentTurnPlayerID == g.currentTurnPlayerID
    && r.phase == g.phase
    && r.roundNumber == g.roundNumber
    && r.turnTimeLimit == g.turnTimeLimit
    && r.winnerID == (if g.winnerID == Some("") then None else g.winnerID)
    && r.turnStartTime == (if g.turnStartTime.Some? && g.turnStartTime.value > 0 then g.turnStartTime else None)
    && multiset(r.turnOrder) == multiset(g.turnOrder)
    && r.turnOrder == Shuffled(g.turnOrder, e.draws)
    && |r.questions| == |g.questions|
    && (forall i :: 0 <= i < |g.questions| ==> r.questions[i] == g.questions[i].(id := e.uuid(i)))
    && r.reactions == g.reactions
  }

  /** The scalar stored fields read back as written. */
  lemma GameStateScalarsReadBack(g: GameState)
    ensures var d := GameStateToDict(g);
      && GetStr(d, "answererID") == Some(g.answererID)
      && GetStr(d, "category") == Some(g.category)
      && GetStr(d, "secretWord") == Some(g.secretWord)
      && GetStr(d, "currentTurnPlayerID") == Some(g.currentTurnPlayerID)
      && GetStr(d, "phase") == Some(PhaseRaw(g.phase))
      && GetNum(d, "roundNumber") == Some(g.roundNumber)
      && GetStr(d, "winnerID") == Some(g.winnerID.GetOr(""))
      && GetNum(d, "turnStartTime") == Some(g.turnStartTime.GetOr(0))
      && GetNum(d, "turnTimeLimit") == Some(g.turnTimeLimit)
  {
  }

  /**
   * Encoding then decoding keeps every scalar field, maps a "" winner and a
   * non-positive turn start to none, reshuffles the turn order, re-mints
   * every question id and keeps the reactions.
   */
  lemma GameStateRoundTrip(g: GameState, e: Entropy)
    ensures GameStateFromDict(GameStateToDict(g), e).Some?
    ensures SurvivesStorage(g, GameStateFromDict(GameStateToDict(g), e).value, e)
  {
    var d := GameStateToDict(g);
    GameStateScalarsReadBack(g);
    StrListRoundTrip(d, "turnOrder", g.turnOrder);
    PhaseRawRoundTrip(g.phase, "");
    DictListRoundTrip(d, "questions", QuestionDicts(g.questions));
    DictListRoundTrip(d, "reactions", ReactionDicts(g.reactions));
    DecodeEncodedQuestions(g.questions, e.uuid, 0);
    DecodeEncodedReactions(g.reactions);
  }
}
