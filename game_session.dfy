/** The shared session document (`GameSession`), its players and its stored form. */
module GameSessionModel {
  import opened Wrappers
  import opened KeyValue
  import opened GameplayModels
  import opened DocumentStore

  datatype GamePlayer = GamePlayer(id: string, displayName: string, avatar: string, joinedAt: int)

  datatype GameSession = GameSession(
    id: string,
    hostId: string,
    players: map<string, GamePlayer>,
    gameStarted: bool,
    gameState: Option<GameState>,
    playerRoles: map<string, PlayerRole>,
    createdAt: int)

  /** `GameSession(id:hostId:hostPlayer:)`; `now` stands for `Date()`. */
  function NewSession(id: string, hostId: string, hostPlayer: GamePlayer, now: int): (s: GameSession)
    ensures s.id == id && s.hostId == hostId && s.players == map[hostId := hostPlayer]
    ensures !s.gameStarted && s.gameState.None? && s.playerRoles == map[]
    ensures s.createdAt == now
    ensures IsHost(s)
  {
    GameSession(id, hostId, map[hostId := hostPlayer], false, None, map[], now)
  }

  /** `isHost`: the host has a player entry. */
  predicate IsHost(s: GameSession)
  {
    s.hostId in s.players
  }

  /** The computed `isHost` of both controllers: the signed-in user hosts the shown session. */
  predicate HostedBy(session: Option<GameSession>, userID: string)
  {
    session.Some? && session.value.hostId == userID
  }

  /** `sessions/{code}` */
  function SessionPath(code: string): (p: Path)
    ensures |p| == 2
  {
    ["sessions", code]
  }

  // ----- player codec -----

  /** `GamePlayer.toDictionary()` */
  function PlayerToDict(p: GamePlayer): Dict
  {
    map[
      "id" := Str(p.id),
      "displayName" := Str(p.displayName),
      "avatar" := Str(p.avatar),
      "joinedAt" := Num(p.joinedAt)
    ]
  }

  /** `GamePlayer.fromDictionary(_:)` */
  function PlayerFromDict(d: Dict): Option<GamePlayer>
  {
    var id := GetStr(d, "id");
    var displayName := GetStr(d, "displayName");
    var avatar := GetStr(d, "avatar");
    var joinedAt := GetNum(d, "joinedAt");
    if id.None? || displayName.None? || avatar.None? || joinedAt.None? then None
    else Some(GamePlayer(id.value, displayName.value, avatar.value, joinedAt.value))
  }

  lemma PlayerRoundTrip(p: GamePlayer)
    ensures PlayerFromDict(PlayerToDict(p)) == Some(p)
  {
  }

  // ----- session codec -----

  function PlayerDicts(players: map<string, GamePlayer>): (m: map<string, Dict>)
    ensures m.Keys == players.Keys
  {
    map k | k in players :: PlayerToDict(players[k])
  }

  function RolesRaw(roles: map<string, PlayerRole>): (m: map<string, string>)
    ensures m.Keys == roles.Keys
  {
    map k | k in roles :: RoleRaw(roles[k])
  }

  /** `GameSession.toDictionary()`; the game state is stored only when there is one. */
  function SessionToDict(s: GameSession): Dict
  {
    var base := map[
      "id" := Str(s.id),
      "hostId" := Str(s.hostId),
      "players" := DictOfDicts(PlayerDicts(s.players)),
      "gameStarted" := Bool(s.gameStarted),
      "playerRoles" := StrDict(RolesRaw(s.playerRoles)),
      "createdAt" := Num(s.createdAt)
    ];
    if s.gameState.Some? then base["gameState" := Map(GameStateToDict(s.gameState.value))] else base
  }

  /** The players that decode, keyed by their entry's key (not by their inner `id`). */
  function DecodedPlayers(entries: map<string, Dict>): (players: map<string, GamePlayer>)
    ensures forall k :: k in players <==> k in entries && PlayerFromDict(entries[k]).Some?
    ensures forall k :: k in players ==> players[k] == PlayerFromDict(entries[k]).value
  {
    map k | k in entries && PlayerFromDict(entries[k]).Some? :: PlayerFromDict(entries[k]).value
  }

  /** The roles whose raw value is known. */
  function DecodedRoles(raw: map<string, string>): (roles: map<string, PlayerRole>)
    ensures forall k :: k in roles <==> k in raw && RoleFromRaw(raw[k]).Some?
    ensures forall k :: k in roles ==> roles[k] == RoleFromRaw(raw[k]).value
  {
    map k | k in raw && RoleFromRaw(raw[k]).Some? :: RoleFromRaw(raw[k]).value
  }

  /** What `GameSession.fromDictionary(_:)` looks up, each under its own key and with its own type. */
  datatype SessionFields = SessionFields(
    id: Option<string>,
    hostId: Option<string>,
    players: Option<map<string, Dict>>,
    gameStarted: Option<bool>,
    createdAt: Option<int>,
    playerRoles: Option<map<string, string>>,
    gameState: Option<Dict>)

  function FieldsOf(d: Dict): SessionFields
  {
    SessionFields(
      GetStr(d, "id"), GetStr(d, "hostId"), GetDictOfDicts(d, "players"), GetBool(d, "gameStarted"),
      GetNum(d, "createdAt"), GetStrDict(d, "playerRoles"), GetDict(d, "gameState"))
  }

  /**
   * `GameSession.fromDictionary(_:)` once the lookups are made: `id`,
   * `hostId`, `players`, `gameStarted` and `createdAt` are required, and so
   * is a decodable player under `hostId`. Undecodable players and unknown
   * roles are skipped; mistyped roles read as none; a missing or
   * undecodable game state reads as none.
   */
  function SessionFromFields(f: SessionFields, e: Entropy): (r: Option<GameSession>)
    ensures r.Some? ==> IsHost(r.value)
  {
    if f.id.None? || f.hostId.None? || f.players.None? || f.gameStarted.None? || f.createdAt.None? then None
    else
      var players := DecodedPlayers(f.players.value);
      if f.hostId.value !in players then None
      else
        var session := NewSession(f.id.value, f.hostId.value, players[f.hostId.value], 0);
        Some(session.(
          players := players,
          gameStarted := f.gameStarted.value,
          createdAt := f.createdAt.value,
          playerRoles := if f.playerRoles.Some? then DecodedRoles(f.playerRoles.value) else map[],
          gameState := if f.gameState.Some? then GameStateFromDict(f.gameState.value, e) else None))
  }

  /** `GameSession.fromDictionary(_:)` */
  function SessionFromDict(d: Dict, e: Entropy): (r: Option<GameSession>)
    ensures r.Some? ==> IsHost(r.value)
  {
    SessionFromFields(FieldsOf(d), e)
  }

  /** `snapshot.value as? [String: Any]` followed by `GameSession.fromDictionary`. */
  function SessionFromValue(v: Value, e: Entropy): (r: Option<GameSession>)
  {
    if v.Map? then SessionFromDict(v.entries, e) else None
  }

  /**
   * The loop `for (playerId, playerDict) in playersDict` that fills
   * `players`, one entry at a time in whatever order the dictionary yields.
   */
  method CollectPlayers(entries: map<string, Dict>) returns (players: map<string, GamePlayer>)
    ensures players == DecodedPlayers(entries)
  {
    players := map[];
    var todo := entries.Keys;
    while todo != {}
      invariant todo <= entries.Keys
      invariant forall k :: k in players <==>
        k in entries && k !in todo && PlayerFromDict(entries[k]).Some?
      invariant forall k :: k in players ==> players[k] == PlayerFromDict(entries[k]).value
      decreases todo
    {
      var key :| key in todo;
      var player := PlayerFromDict(entries[key]);
      if player.Some? {
        players := players[key := player.value];
      }
      todo := todo - {key};
    }
  }

  /** The loop `for (playerId, roleString) in rolesDict` that fills `playerRoles`. */
  method CollectRoles(raw: map<string, string>) returns (roles: map<string, PlayerRole>)
    ensures roles == DecodedRoles(raw)
  {
    roles := map[];
    var todo := raw.Keys;
    while todo != {}
      invariant todo <= raw.Keys
      invariant forall k :: k in roles <==> k in raw && k !in todo && RoleFromRaw(raw[k]).Some?
      invariant forall k :: k in roles ==> roles[k] == RoleFromRaw(raw[k]).value
      decreases todo
    {
      var key :| key in todo;
      var role := RoleFromRaw(raw[key]);
      if role.Some? {
        roles := roles[key := role.value];
      }
      todo := todo - {key};
    }
  }

  /** `GameSession.fromDictionary(_:)` as the Swift initialiser runs it, with its two loops. */
  method DecodeSession(v: Value, e: Entropy) returns (r: Option<GameSession>)
    ensures r == SessionFromValue(v, e)
    ensures r.Some? ==> IsHost(r.value)
  {
    if !v.Map? {
      return None;
    }
    var d := v.entries;
    var id := GetStr(d, "id");
    var hostId := GetStr(d, "hostId");
    var playersDict := GetDictOfDicts(d, "players");
    var gameStarted := GetBool(d, "gameStarted");
    var createdAt := GetNum(d, "createdAt");
    if id.None? || hostId.None? || playersDict.None? || gameStarted.None? || createdAt.None? {
      return None;
    }
    var players := CollectPlayers(playersDict.value);
    if hostId.value !in players {
      return None;
    }
    var session := NewSession(id.value, hostId.value, players[hostId.value], 0);
    session := session.(players := players, gameStarted := gameStarted.value, createdAt := createdAt.value);
    var rolesDict := GetStrDict(d, "playerRoles");
    if rolesDict.Some? {
      var roles := CollectRoles(rolesDict.value);
      session := session.(playerRoles := roles);
    }
    var gameStateDict := GetDict(d, "gameState");
    if gameStateDict.Some? {
      session := session.(gameState := GameStateFromDict(gameStateDict.value, e));
    }
    r := Some(session);
  }

  // ----- properties of the codec -----

  /** Decoding fails when a required key is missing or mistyped. */
  lemma MissingRequiredKey(d: Dict, e: Entropy)
    requires GetStr(d, "id").None? || GetStr(d, "hostId").None? || GetDictOfDicts(d, "players").None? ||
             GetBool(d, "gameStarted").None? || GetNum(d, "createdAt").None?
    ensures SessionFromDict(d, e).None?
  {
  }

  /** Decoding fails when the host has no decodable player entry, even if every other key is fine. */
  lemma HostlessSessionRejected(d: Dict, e: Entropy)
    requires GetStr(d, "hostId").Some? && GetDictOfDicts(d, "players").Some?
    requires var host := GetStr(d, "hostId").value;
      var entries := GetDictOfDicts(d, "players").value;
      host !in entries || PlayerFromDict(entries[host]).None?
    ensures SessionFromDict(d, e).None?
  {
  }

  /** A game state that is absent, or present but undecodable, reads as no game state. */
  lemma UndecodableGameStateIsDropped(d: Dict, e: Entropy)
    requires SessionFromDict(d, e).Some?
    requires GetDict(d, "gameState").None? || GameStateFromDict(GetDict(d, "gameState").value, e).None?
    ensures SessionFromDict(d, e).value.gameState.None?
  {
  }

  lemma PlayersReadBack(players: map<string, GamePlayer>)
    ensures DecodedPlayers(PlayerDicts(players)) == players
  {
    var entries := PlayerDicts(players);
    forall k | k in players ensures PlayerFromDict(entries[k]) == Some(players[k]) {
      PlayerRoundTrip(players[k]);
    }
  }

  lemma RolesReadBack(roles: map<string, PlayerRole>)
    ensures DecodedRoles(RolesRaw(roles)) == roles
  {
    var raw := RolesRaw(roles);
    forall k | k in roles ensures RoleFromRaw(raw[k]) == Some(roles[k]) {
      RoleRawRoundTrip(roles[k], "");
    }
  }

  /** The fields that a session whose host is present keeps through storage. */
  predicate SessionSurvivesStorage(s: GameSession, r: GameSession, e: Entropy)
  {
    && r.id == s.id
    && r.hostId == s.hostId
    && r.players == s.players
    && r.gameStarted == s.gameStarted
    && r.playerRoles == s.playerRoles
    && r.createdAt == s.createdAt
    && r.gameState.Some? == s.gameState.Some?
    && (s.gameState.Some? ==> SurvivesStorage(s.gameState.value, r.gameState.value, e))
  }

  /** What each lookup of `SessionFromDict` finds in `SessionToDict(s)`. */
  lemma SessionLookups(s: GameSession)
    ensures FieldsOf(SessionToDict(s)) == SessionFields(
      Some(s.id), Some(s.hostId), Some(PlayerDicts(s.players)), Some(s.gameStarted), Some(s.createdAt),
      Some(RolesRaw(s.playerRoles)),
      if s.gameState.Some? then Some(GameStateToDict(s.gameState.value)) else None)
  {
    var d := SessionToDict(s);
    assert d["id"] == Str(s.id) && d["hostId"] == Str(s.hostId);
    assert d["gameStarted"] == Bool(s.gameStarted) && d["createdAt"] == Num(s.createdAt);
    DictOfDictsRoundTrip(d, "players", PlayerDicts(s.players));
    StrDictRoundTrip(d, "playerRoles", RolesRaw(s.playerRoles));
    if s.gameState.Some? {
      assert d["gameState"] == Map(GameStateToDict(s.gameState.value));
    } else {
      assert "gameState" !in d;
    }
  }

  /**
   * Encoding then decoding a session that contains its host keeps its id,
   * host, players, start flag, roles and creation time, and its game state
   * up to what the game-state codec keeps.
   */
  lemma SessionRoundTrip(s: GameSession, e: Entropy)
    requires IsHost(s)
    ensures SessionFromDict(SessionToDict(s), e).Some?
    ensures SessionSurvivesStorage(s, SessionFromDict(SessionToDict(s), e).value, e)
  {
    SessionLookups(s);
    PlayersReadBack(s.players);
    RolesReadBack(s.playerRoles);
    if s.gameState.Some? {
      GameStateRoundTrip(s.gameState.value, e);
    }
  }

  /** A session that lacks its host is not read back at all. */
  lemma HostlessSessionLost(s: GameSession, e: Entropy)
    requires !IsHost(s)
    ensures SessionFromDict(SessionToDict(s), e).None?
  {
    SessionLookups(s);
    PlayersReadBack(s.players);
  }

  // ----- what a write below a stored session does to its decoding -----

  /** Overwriting the stored game state changes the decoded session's game state only. */
  lemma SessionWithGameState(d: Dict, gd: Dict, e: Entropy)
    requires SessionFromDict(d, e).Some?
    ensures SessionFromDict(d["gameState" := Map(gd)], e) ==
            Some(SessionFromDict(d, e).value.(gameState := GameStateFromDict(gd, e)))
  {
    assert FieldsOf(d["gameState" := Map(gd)]) == FieldsOf(d).(gameState := Some(gd));
    AssembleWithGameState(FieldsOf(d), gd, e);
  }

  lemma AssembleWithGameState(f: SessionFields, gd: Dict, e: Entropy)
    requires SessionFromFields(f, e).Some?
    ensures SessionFromFields(f.(gameState := Some(gd)), e) ==
            Some(SessionFromFields(f, e).value.(gameState := GameStateFromDict(gd, e)))
  {
  }

  /** Storing a player entry in a decodable session adds (or replaces) that player. */
  lemma SessionWithPlayer(d: Dict, key: string, p: GamePlayer, e: Entropy)
    requires SessionFromDict(d, e).Some?
    ensures GetDict(d, "players").Some?
    ensures SessionFromDict(d["players" := Map(GetDict(d, "players").value[key := Map(PlayerToDict(p))])], e) ==
      Some(SessionFromDict(d, e).value.(players := SessionFromDict(d, e).value.players[key := p]))
  {
    var entries := GetDict(d, "players").value;
    var d' := d["players" := Map(entries[key := Map(PlayerToDict(p))])];
    var dicts := GetDictOfDicts(d, "players").value;
    DictOfDictsWith(d, "players", key, PlayerToDict(p));
    assert FieldsOf(d') == FieldsOf(d).(players := Some(dicts[key := PlayerToDict(p)]));
    AssembleWithPlayer(FieldsOf(d), key, p, e);
  }

  lemma AssembleWithPlayer(f: SessionFields, key: string, p: GamePlayer, e: Entropy)
    requires SessionFromFields(f, e).Some?
    ensures f.players.Some?
    ensures SessionFromFields(f.(players := Some(f.players.value[key := PlayerToDict(p)])), e) ==
      Some(SessionFromFields(f, e).value.(players := SessionFromFields(f, e).value.players[key := p]))
  {
    PlayerRoundTrip(p);
    assert DecodedPlayers(f.players.value[key := PlayerToDict(p)]) == DecodedPlayers(f.players.value)[key := p];
  }

  /**
   * Removing a player entry from a decodable session drops that player,
   * and when it is the host's entry the session no longer decodes at all.
   */
  lemma SessionWithoutPlayer(d: Dict, key: string, e: Entropy)
    requires SessionFromDict(d, e).Some?
    ensures GetDict(d, "players").Some?
    ensures key == SessionFromDict(d, e).value.hostId ==>
      SessionFromDict(d["players" := Map(GetDict(d, "players").value - {key})], e).None?
    ensures key != SessionFromDict(d, e).value.hostId ==>
      SessionFromDict(d["players" := Map(GetDict(d, "players").value - {key})], e) ==
      Some(SessionFromDict(d, e).value.(players := SessionFromDict(d, e).value.players - {key}))
  {
    var entries := GetDict(d, "players").value;
    var d' := d["players" := Map(entries - {key})];
    var dicts := GetDictOfDicts(d, "players").value;
    DictOfDictsWithout(d, "players", key);
    assert FieldsOf(d') == FieldsOf(d).(players := Some(dicts - {key}));
    AssembleWithoutPlayer(FieldsOf(d), key, e);
  }

  lemma AssembleWithoutPlayer(f: SessionFields, key: string, e: Entropy)
    requires SessionFromFields(f, e).Some?
    ensures f.players.Some?
    ensures key == SessionFromFields(f, e).value.hostId ==>
      SessionFromFields(f.(players := Some(f.players.value - {key})), e).None?
    ensures key != SessionFromFields(f, e).value.hostId ==>
      SessionFromFields(f.(players := Some(f.players.value - {key})), e) ==
      Some(SessionFromFields(f, e).value.(players := SessionFromFields(f, e).value.players - {key}))
  {
    assert DecodedPlayers(f.players.value - {key}) == DecodedPlayers(f.players.value) - {key};
  }

  // ----- playersList -----

  predicate SortedByJoin(list: seq<GamePlayer>)
  {
    forall i, j :: 0 <= i < j < |list| ==> list[i].joinedAt <= list[j].joinedAt
  }

  /** The players stored under the keys `order`, in that order. */
  function PlayersAlong(players: map<string, GamePlayer>, order: seq<string>): (r: seq<GamePlayer>)
    requires forall k :: k in order ==> k in players
    ensures |r| == |order|
  {
    if order == [] then [] else [players[order[0]]] + PlayersAlong(players, order[1..])
  }

  /** Inserts `p` after every player who joined no later than it. */
  function InsertByJoin(list: seq<GamePlayer>, p: GamePlayer): (r: seq<GamePlayer>)
    ensures multiset(r) == multiset(list) + multiset{p}
  {
    if list == [] then [p]
    else if p.joinedAt < list[0].joinedAt then [p] + list
    else
      assert list == [list[0]] + list[1..];
      [list[0]] + InsertByJoin(list[1..], p)
  }

  lemma {:induction false} InsertKeepsSorted(list: seq<GamePlayer>, p: GamePlayer)
    requires SortedByJoin(list)
    ensures SortedByJoin(InsertByJoin(list, p))
    ensures forall q :: q in InsertByJoin(list, p) ==> q in list || q == p
  {
    if list == [] {
    } else if p.joinedAt < list[0].joinedAt {
      SortedCons(p, list);
    } else {
      var rest := InsertByJoin(list[1..], p);
      SortedTail(list);
      InsertKeepsSorted(list[1..], p);
      forall q | q in rest ensures list[0].joinedAt <= q.joinedAt {
        if q != p { SortedFirst(list, q); }
      }
      SortedCons(list[0], rest);
    }
  }

  lemma SortedTail(list: seq<GamePlayer>)
    requires SortedByJoin(list) && list != []
    ensures SortedByJoin(list[1..])
  {
    forall i, j | 0 <= i < j < |list| - 1 ensures list[1..][i].joinedAt <= list[1..][j].joinedAt {
      assert list[1..][i] == list[i + 1] && list[1..][j] == list[j + 1];
    }
  }

  /** The first player of a sorted list joined no later than any other. */
  lemma SortedFirst(list: seq<GamePlayer>, q: GamePlayer)
    requires SortedByJoin(list) && list != [] && q in list[1..]
    ensures list[0].joinedAt <= q.joinedAt
  {
    var i :| 0 <= i < |list[1..]| && list[1..][i] == q;
    assert list[i + 1] == q;
  }

  /** A player who joined no later than everyone in a sorted list can lead it. */
  lemma SortedCons(x: GamePlayer, rest: seq<GamePlayer>)
    requires SortedByJoin(rest)
    requires forall q :: q in rest ==> x.joinedAt <= q.joinedAt
    ensures SortedByJoin([x] + rest)
  {
    var l := [x] + rest;
    forall i, j | 0 <= i < j < |l| ensures l[i].joinedAt <= l[j].joinedAt {
      assert l[j] == rest[j - 1];
      if i > 0 { assert l[i] == rest[i - 1]; }
    }
  }

  /** Insertion sort by `joinedAt`. */
  function SortByJoin(list: seq<GamePlayer>): (r: seq<GamePlayer>)
    ensures SortedByJoin(r)
    ensures multiset(r) == multiset(list)
  {
    if list == [] then []
    else
      assert list == [list[0]] + list[1..];
      var rest := SortByJoin(list[1..]);
      InsertKeepsSorted(rest, list[0]);
      InsertByJoin(rest, list[0])
  }

  /** `order` lists every key of `players` exactly once. */
  predicate EnumeratesKeys(players: map<string, GamePlayer>, order: seq<string>)
  {
    && Randomness.Distinct(order)
    && (forall k :: k in order ==> k in players)
    && (forall k :: k in players ==> k in order)
  }

  /**
   * `playersList`: the players sorted by `joinedAt`. `order` stands for the
   * unspecified order in which the dictionary yields its values.
   */
  function PlayersList(s: GameSession, order: seq<string>): (list: seq<GamePlayer>)
    requires EnumeratesKeys(s.players, order)
  {
    SortByJoin(PlayersAlong(s.players, order))
  }

  /**
   * `playersList` is sorted by join time, has one entry per player, and
   * holds exactly the stored players, whatever the iteration order.
   */
  lemma PlayersListSortedPermutation(s: GameSession, order: seq<string>)
    requires EnumeratesKeys(s.players, order)
    ensures SortedByJoin(PlayersList(s, order))
    ensures |PlayersList(s, order)| == |s.players|
    ensures forall p :: p in PlayersList(s, order) <==> exists k :: k in s.players && s.players[k] == p
    ensures forall p :: multiset(PlayersList(s, order))[p] == |KeysHolding(s.players, p)|
  {
    var along := PlayersAlong(s.players, order);
    var list := PlayersList(s, order);
    forall p ensures multiset(list)[p] == |KeysHolding(s.players, p)| {
      AlongCount(s.players, order, p);
      assert KeysAlongHolding(s.players, order, p) == KeysHolding(s.players, p);
    }
    Randomness.DistinctCardinality(order);
    assert (set x | x in order) == s.players.Keys;
    assert |list| == |multiset(list)| == |multiset(along)| == |along|;
    forall p ensures p in list <==> exists k :: k in s.players && s.players[k] == p {
      AlongMembers(s.players, order, p);
      assert p in list <==> p in multiset(list);
      assert p in along <==> p in multiset(along);
      if exists k :: k in s.players && s.players[k] == p {
        var k :| k in s.players && s.players[k] == p;
        var i :| 0 <= i < |order| && order[i] == k;
        assert s.players[order[i]] == p;
      }
    }
  }

  /** The keys under which `players` stores `p`: how often `p` is among `players.values`. */
  function KeysHolding(players: map<string, GamePlayer>, p: GamePlayer): set<string>
  {
    set k | k in players && players[k] == p
  }

  /** The keys of `order` under which `players` stores `p`. */
  function KeysAlongHolding(players: map<string, GamePlayer>, order: seq<string>, p: GamePlayer): set<string>
    requires forall k :: k in order ==> k in players
  {
    set k | k in order && players[k] == p
  }

  /** Along a duplicate-free key order, `p` appears once per key that holds it. */
  lemma {:induction false} AlongCount(players: map<string, GamePlayer>, order: seq<string>, p: GamePlayer)
    requires forall k :: k in order ==> k in players
    requires Randomness.Distinct(order)
    ensures multiset(PlayersAlong(players, order))[p] == |KeysAlongHolding(players, order, p)|
  {
    if order == [] {
      assert KeysAlongHolding(players, order, p) == {};
    } else {
      var rest := order[1..];
      Randomness.DistinctWithout(order, 0);
      assert order[..0] + order[1..] == rest;
      AlongCount(players, rest, p);
      assert PlayersAlong(players, order) == [players[order[0]]] + PlayersAlong(players, rest);
      KeysAlongSplit(players, order, p);
    }
  }

  /** The holders along `order` are its head, when it holds `p`, and the holders along its tail. */
  lemma KeysAlongSplit(players: map<string, GamePlayer>, order: seq<string>, p: GamePlayer)
    requires forall k :: k in order ==> k in players
    requires order != [] && order[0] !in order[1..]
    ensures |KeysAlongHolding(players, order, p)| ==
            |KeysAlongHolding(players, order[1..], p)| + (if players[order[0]] == p then 1 else 0)
  {
    var tail := KeysAlongHolding(players, order[1..], p);
    assert order == [order[0]] + order[1..];
    if players[order[0]] == p {
      assert KeysAlongHolding(players, order, p) == {order[0]} + tail;
    } else {
      assert KeysAlongHolding(players, order, p) == tail;
    }
  }

  lemma {:induction false} AlongMembers(players: map<string, GamePlayer>, order: seq<string>, p: GamePlayer)
    requires forall k :: k in order ==> k in players
    ensures p in PlayersAlong(players, order) <==> exists i :: 0 <= i < |order| && players[order[i]] == p
  {
    if order != [] {
      AlongMembers(players, order[1..], p);
      if p in PlayersAlong(players, order[1..]) {
        var i :| 0 <= i < |order[1..]| && players[order[1..][i]] == p;
        assert players[order[i + 1]] == p;
      }
      if exists i :: 0 <= i < |order| && players[order[i]] == p {
        var i :| 0 <= i < |order| && players[order[i]] == p;
        if i > 0 {
          assert players[order[1..][i - 1]] == p;
        }
      }
    }
  }
}
