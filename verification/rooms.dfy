/** The room endpoints of main.py as atomic transitions of the room store:
    create, join, start and roll. */
module Rooms {
  import opened Wrappers
  import opened Schemas
  import opened Helpers

  /** The errors the endpoints raise, one per distinct `HTTPException`. */
  datatype Error =
    | RoomCodeExists      // create: 400 "Room code already exists"
    | RoomNotFound        // join, start, roll: 404 "Room not found"
    | GameAlreadyStarted  // join: 400 "Game already started"
    | RoomFull            // join: 400 "Room is full"
    | AlreadyStarted      // start: 400 "Already started"
    | NotEnoughPlayers    // start: 400 "Need at least 2 players"
    | GameNotStarted      // roll: 400 "Game not started"
    | NotYourTurn         // roll: 403 "Not your turn"

  /** The HTTP status each error is reported with. */
  function HttpStatus(e: Error): (status: int)
    ensures status == 404 <==> e == RoomNotFound
    ensures status == 403 <==> e == NotYourTurn
    ensures status != 404 && status != 403 ==> status == 400
  {
    match e
    case RoomNotFound => 404
    case NotYourTurn => 403
    case _ => 400
  }

  /** The room collection, keyed by join code. */
  type Store = map<string, Room>

  /** What create, join and start return: the new store and the saved room. */
  datatype Reply = Reply(store: Store, room: Room)

  /** What a roll returns: the new store, the die value and the saved room. */
  datatype RollReply = RollReply(store: Store, roll: int, room: Room)

  /** The `created_by` value every room is created with. */
  const Host: string := "host"

  const MinPlayersToStart: nat := 2

  /** The ids of the players, in join order. */
  function IdsOf(players: seq<Player>): (ids: seq<string>)
    ensures |ids| == |players|
    ensures forall i :: 0 <= i < |players| ==> ids[i] == players[i].id
  {
    seq(|players|, i requires 0 <= i < |players| => players[i].id)
  }

  /** The first position of `x` in `xs` (Python's `list.index`). */
  function IndexOf(xs: seq<string>, x: string): (k: nat)
    requires x in xs
    ensures k < |xs| && xs[k] == x
    ensures forall j :: 0 <= j < k ==> xs[j] != x
  {
    if xs[0] == x then 0 else 1 + IndexOf(xs[1..], x)
  }

  /** What every room reachable through the endpoints satisfies. */
  predicate RoomInv(r: Room)
  {
    && r.maxPlayers == DefaultMaxPlayers
    && 1 <= |r.players| <= r.maxPlayers
    && r.createdBy == Host
    && (forall i :: 0 <= i < |r.players| ==> r.players[i].id == PlayerId(r.id, i))
    && (forall i :: 0 <= i < |r.players| ==> r.players[i].color == Palette[i])
    && (forall i :: 0 <= i < |r.players| ==> IsFreshHuman(r.players[i]))
    && r.status != Finished
    && (r.status == Waiting ==> r.currentTurn == None && r.lastRoll == None)
    && (r.status == Playing ==>
          |r.players| >= MinPlayersToStart
          && r.currentTurn.Some? && r.currentTurn.value in IdsOf(r.players))
    && (r.lastRoll.Some? ==> 1 <= r.lastRoll.value <= 6)
  }

  /** Every room is stored under its own code and satisfies the room invariant. */
  predicate Valid(s: Store)
  {
    forall c :: c in s ==> s[c].code == c && RoomInv(s[c])
  }

  /** The invariant makes colours and ids pairwise distinct, and every token lies in its domain. */
  lemma RoomInvDistinct(r: Room)
    requires RoomInv(r)
    ensures |r.players| <= 4
    ensures forall i, j :: 0 <= i < j < |r.players| ==> r.players[i].color != r.players[j].color
    ensures forall i, j :: 0 <= i < j < |r.players| ==> r.players[i].id != r.players[j].id
    ensures forall i, k :: 0 <= i < |r.players| && 0 <= k < |r.players[i].tokens| ==>
              r.players[i].tokens[k] == BaseSquare && TokenInDomain(r.players[i].tokens[k])
  {
    PaletteListsEveryColorOnce();
    forall i, j | 0 <= i < j < |r.players|
      ensures r.players[i].id != r.players[j].id
    {
      PlayerIdInjective(r.id, i, j);
    }
  }

  /** The code a create request uses: the requested one, or a generated one
      when none or the empty string was sent (`room_code or _generate_code()`). */
  function ChosenCode(requested: Option<string>, picks: seq<nat>): (code: string)
    requires ValidPicks(picks)
    ensures requested.Some? && requested.value != "" ==> code == requested.value
    ensures requested.None? || requested.value == "" ==> IsGeneratedCode(code)
  {
    if requested.Some? && requested.value != "" then requested.value else GenerateCode(picks)
  }

  /** POST /rooms/create. `picks` are the generator's draws, `newId` the
      storage id the insertion assigns. */
  function CreateRoom(s: Store, playerName: string, requested: Option<string>,
                      picks: seq<nat>, newId: string): (r: Result<Reply, Error>)
    requires ValidPicks(picks)
    ensures var code := ChosenCode(requested, picks);
      && (r.Err? <==> code in s)
      && (r.Err? ==> r.error == RoomCodeExists)
      && (r.Ok? ==> r.value.store == s[code := r.value.room] && code !in s)
    ensures r.Ok? ==>
      var room := r.value.room;
      && room.id == newId
      && room.code == ChosenCode(requested, picks)
      && room.createdBy == Host
      && room.status == Waiting
      && room.maxPlayers == 4
      && room.currentTurn == None
      && room.lastRoll == None
      && room.players == [Player(PlayerId(newId, 0), playerName, Red, [-1, -1, -1, -1], false)]
  {
    var code := ChosenCode(requested, picks);
    if code in s then Err(RoomCodeExists)
    else
      var host := NewPlayer(PlayerId(newId, 0), playerName, NextColor([]));
      NextColorIsFreeWhenOneIs([]);
      var room := NewRoom(newId, code, Host).(players := [host]);
      Ok(Reply(s[code := room], room))
  }

  /** POST /rooms/join. */
  function JoinRoom(s: Store, code: string, playerName: string): (r: Result<Reply, Error>)
    ensures r == Err(RoomNotFound) <==> code !in s
    ensures r == Err(GameAlreadyStarted) <==> code in s && s[code].status != Waiting
    ensures r == Err(RoomFull) <==>
      code in s && s[code].status == Waiting && |s[code].players| >= s[code].maxPlayers
    ensures r.Ok? <==>
      code in s && s[code].status == Waiting && |s[code].players| < s[code].maxPlayers
    ensures r.Ok? ==>
      var before := s[code];
      var after := r.value.room;
      var n := |before.players|;
      && r.value.store == s[code := after]
      && |after.players| == n + 1
      && after.players[..n] == before.players
      && after.players[n].id == PlayerId(before.id, n)
      && after.players[n].name == playerName
      && after.players[n].color == NextColor(before.players)
      && after.players[n].tokens == [-1, -1, -1, -1]
      && !after.players[n].isBot
      && after.(players := before.players) == before
  {
    if code !in s then Err(RoomNotFound)
    else
      var room := s[code];
      if room.status != Waiting then Err(GameAlreadyStarted)
      else if |room.players| >= room.maxPlayers then Err(RoomFull)
      else
        var room' := WithJoiner(room, playerName);
        Ok(Reply(s[code := room'], room'))
  }

  /** The room with one more player appended, as join builds it. */
  function WithJoiner(room: Room, playerName: string): Room
  {
    var n := |room.players|;
    room.(players := room.players + [NewPlayer(PlayerId(room.id, n), playerName, NextColor(room.players))])
  }

  /** Appending a joiner to a waiting room that is not full keeps the room
      invariant, and the joiner's colour is the next palette colour, free until now. */
  lemma JoinKeepsInvariant(room: Room, playerName: string)
    requires RoomInv(room)
    requires room.status == Waiting && |room.players| < room.maxPlayers
    ensures var n := |room.players|;
      && WithJoiner(room, playerName).players[n].color == Palette[n]
      && Palette[n] !in UsedColors(room.players)
      && RoomInv(WithJoiner(room, playerName))
  {
    var n := |room.players|;
    var room' := WithJoiner(room, playerName);
    NextColorFollowsPalette(room.players);
    PaletteListsEveryColorOnce();
    assert forall i :: 0 <= i < n ==> room.players[i].color != Palette[n];
    assert forall i :: 0 <= i < n ==> room'.players[i] == room.players[i];
    assert room'.players[n].id == PlayerId(room.id, n);
    assert IsFreshHuman(room'.players[n]);
  }

  /** POST /rooms/{code}/start. */
  function StartGame(s: Store, code: string): (r: Result<Reply, Error>)
    ensures r == Err(RoomNotFound) <==> code !in s
    ensures r == Err(AlreadyStarted) <==> code in s && s[code].status != Waiting
    ensures r == Err(NotEnoughPlayers) <==>
      code in s && s[code].status == Waiting && |s[code].players| < MinPlayersToStart
    ensures r.Ok? <==>
      code in s && s[code].status == Waiting && |s[code].players| >= MinPlayersToStart
    ensures r.Ok? ==>
      var before := s[code];
      var after := r.value.room;
      && r.value.store == s[code := after]
      && after.status == Playing
      && after.currentTurn == Some(before.players[0].id)
      && after.players == before.players
      && after.(status := before.status, currentTurn := before.currentTurn) == before
  {
    if code !in s then Err(RoomNotFound)
    else
      var room := s[code];
      if room.status != Waiting then Err(AlreadyStarted)
      else if |room.players| < MinPlayersToStart then Err(NotEnoughPlayers)
      else
        var room' := room.(status := Playing, currentTurn := Some(room.players[0].id));
        Ok(Reply(s[code := room'], room'))
  }

  /** The precondition Python's `ids.index(player_id)` puts on a roll that
      passed the turn check: the turn holder is one of the room's players. */
  predicate TurnHolderSeated(s: Store, code: string, playerId: string)
  {
    code in s && s[code].status == Playing && s[code].currentTurn == Some(playerId) ==>
      playerId in IdsOf(s[code].players)
  }

  /** POST /rooms/{code}/roll. `die` is the value `randint(1, 6)` drew. */
  function RollDice(s: Store, code: string, playerId: string, die: int): (r: Result<RollReply, Error>)
    requires 1 <= die <= 6
    requires TurnHolderSeated(s, code, playerId)
    ensures r == Err(RoomNotFound) <==> code !in s
    ensures r == Err(GameNotStarted) <==> code in s && s[code].status != Playing
    ensures r == Err(NotYourTurn) <==>
      code in s && s[code].status == Playing && s[code].currentTurn != Some(playerId)
    ensures r.Ok? <==>
      code in s && s[code].status == Playing && s[code].currentTurn == Some(playerId)
    ensures r.Ok? ==>
      var before := s[code];
      var after := r.value.room;
      var ids := IdsOf(before.players);
      && r.value.store == s[code := after]
      && r.value.roll == die
      && 1 <= r.value.roll <= 6
      && after.lastRoll == Some(die)
      && after.currentTurn == Some(ids[(IndexOf(ids, playerId) + 1) % |ids|])
      && after.(lastRoll := before.lastRoll, currentTurn := before.currentTurn) == before
  {
    if code !in s then Err(RoomNotFound)
    else
      var room := s[code];
      if room.status != Playing then Err(GameNotStarted)
      else if room.currentTurn != Some(playerId) then Err(NotYourTurn)
      else
        var ids := IdsOf(room.players);
        var next := ids[(IndexOf(ids, playerId) + 1) % |ids|];
        var room' := room.(lastRoll := Some(die), currentTurn := Some(next));
        Ok(RollReply(s[code := room'], die, room'))
  }

  // ----- The invariant is kept by every endpoint -----

  /** How a room may change: same identity and code, players only appended,
      status only moving forward. */
  predicate Evolves(before: Room, after: Room)
  {
    && after.id == before.id
    && after.code == before.code
    && before.players <= after.players
    && StatusRank(before.status) <= StatusRank(after.status)
  }

  /** Replacing one room of a valid store by a room that keeps the invariant
      and the code keeps the store valid. */
  lemma ReplaceKeepsValid(s: Store, code: string, room: Room)
    requires Valid(s) && room.code == code && RoomInv(room)
    ensures Valid(s[code := room])
  {
  }

  /** Creating a room keeps every room valid: the new room holds only its
      creator, with the first palette colour and seat 0's id. */
  lemma CreatePreservesValid(s: Store, playerName: string, requested: Option<string>,
                             picks: seq<nat>, newId: string)
    requires Valid(s) && ValidPicks(picks)
    ensures var r := CreateRoom(s, playerName, requested, picks, newId);
      r.Ok? ==> Valid(r.value.store)
  {
    var r := CreateRoom(s, playerName, requested, picks, newId);
    if r.Ok? {
      assert RoomInv(r.value.room);
      ReplaceKeepsValid(s, r.value.room.code, r.value.room);
    }
  }

  /** Joining keeps every room valid; the joiner takes the next palette colour,
      which no earlier player has, and the room only grows. */
  lemma JoinPreservesValid(s: Store, code: string, playerName: string)
    requires Valid(s)
    ensures var r := JoinRoom(s, code, playerName);
      r.Ok? ==>
        var n := |s[code].players|;
        && r.value.room.players[n].color == Palette[n]
        && r.value.room.players[n].color !in UsedColors(s[code].players)
        && Evolves(s[code], r.value.room)
        && Valid(r.value.store)
  {
    var r := JoinRoom(s, code, playerName);
    if r.Ok? {
      JoinKeepsInvariant(s[code], playerName);
      assert r.value.room == WithJoiner(s[code], playerName);
      ReplaceKeepsValid(s, code, r.value.room);
    }
  }

  /** Starting keeps every room valid: the turn goes to a member, and the
      status moves forward. */
  lemma StartPreservesValid(s: Store, code: string)
    requires Valid(s)
    ensures var r := StartGame(s, code);
      r.Ok? ==> Evolves(s[code], r.value.room) && Valid(r.value.store)
  {
    var r := StartGame(s, code);
    if r.Ok? {
      assert IdsOf(s[code].players)[0] == s[code].players[0].id;
      assert RoomInv(r.value.room);
      ReplaceKeepsValid(s, code, r.value.room);
    }
  }

  /** Rolling keeps every room valid: the die is in range and the turn stays
      with a member. */
  lemma RollPreservesValid(s: Store, code: string, playerId: string, die: int)
    requires Valid(s) && 1 <= die <= 6
    ensures TurnHolderSeated(s, code, playerId)
    ensures var r := RollDice(s, code, playerId, die);
      r.Ok? ==> Evolves(s[code], r.value.room) && Valid(r.value.store)
  {
    var r := RollDice(s, code, playerId, die);
    if r.Ok? {
      assert RoomInv(r.value.room);
      ReplaceKeepsValid(s, code, r.value.room);
    }
  }
}
