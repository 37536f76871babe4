/** The four room endpoints as one request handler over the room store, and
    what holds of every store reachable from an empty one. */
module Server {
  import opened Wrappers
  import opened Schemas
  import opened Helpers
  import opened Rooms

  /** One call of an endpoint, with the values its random draws and the
      storage layer supplied. */
  datatype Request =
    | Create(playerName: string, requestedCode: Option<string>, picks: seq<nat>, newId: string)
    | Join(roomCode: string, playerName: string)
    | Start(roomCode: string)
    | Roll(roomCode: string, playerId: string, die: int)

  /** The response body of a successful request. */
  datatype Response = RoomResponse(room: Room) | RollResponse(roll: int, room: Room)

  /** The store after a request, and the request's response or error. */
  datatype Outcome = Outcome(store: Store, response: Result<Response, Error>)

  /** The draws are ones `secrets.choice` and `randint(1, 6)` can make. */
  predicate WellFormed(req: Request)
  {
    match req
    case Create(_, _, picks, _) => ValidPicks(picks)
    case Roll(_, _, die) => 1 <= die <= 6
    case _ => true
  }

  /** The code of the room a request addresses. */
  function Target(req: Request): string
    requires WellFormed(req)
  {
    match req
    case Create(_, requested, picks, _) => ChosenCode(requested, picks)
    case Join(code, _) => code
    case Start(code) => code
    case Roll(code, _, _) => code
  }

  /** What every request does to the store: it keeps the store valid; an
      error leaves the store as it was; a success answers with the stored
      addressed room; only the addressed room is added or changed, and every
      existing room only evolves forward. */
  predicate Lawful(s: Store, target: string, o: Outcome)
  {
    && Valid(o.store)
    && (o.response.Err? ==> o.store == s)
    && (o.response.Ok? ==> target in o.store && o.response.value.room == o.store[target])
    && s.Keys <= o.store.Keys <= s.Keys + {target}
    && (forall c :: c in s ==> Evolves(s[c], o.store[c]))
    && (forall c :: c in s && c != target ==> o.store[c] == s[c])
  }

  /** Writing back one evolved room, valid afterwards, is a lawful step. */
  lemma UpdateIsLawful(s: Store, code: string, room: Room, response: Response)
    requires Valid(s[code := room]) && response.room == room
    requires code in s ==> Evolves(s[code], room)
    ensures Lawful(s, code, Outcome(s[code := room], Ok(response)))
  {
  }

  /** A failed request is a lawful step. */
  lemma ErrorIsLawful(s: Store, code: string, e: Error)
    requires Valid(s)
    ensures Lawful(s, code, Outcome(s, Err(e)))
  {
  }

  function HandleCreate(s: Store, name: string, requested: Option<string>, picks: seq<nat>, newId: string): (o: Outcome)
    requires Valid(s) && ValidPicks(picks)
    ensures Lawful(s, ChosenCode(requested, picks), o)
  {
    var code := ChosenCode(requested, picks);
    CreatePreservesValid(s, name, requested, picks, newId);
    match CreateRoom(s, name, requested, picks, newId)
    case Ok(reply) =>
      UpdateIsLawful(s, code, reply.room, RoomResponse(reply.room));
      Outcome(reply.store, Ok(RoomResponse(reply.room)))
    case Err(e) =>
      ErrorIsLawful(s, code, e);
      Outcome(s, Err(e))
  }

  function HandleJoin(s: Store, code: string, name: string): (o: Outcome)
    requires Valid(s)
    ensures Lawful(s, code, o)
  {
    JoinPreservesValid(s, code, name);
    match JoinRoom(s, code, name)
    case Ok(reply) =>
      UpdateIsLawful(s, code, reply.room, RoomResponse(reply.room));
      Outcome(reply.store, Ok(RoomResponse(reply.room)))
    case Err(e) =>
      ErrorIsLawful(s, code, e);
      Outcome(s, Err(e))
  }

  function HandleStart(s: Store, code: string): (o: Outcome)
    requires Valid(s)
    ensures Lawful(s, code, o)
  {
    StartPreservesValid(s, code);
    match StartGame(s, code)
    case Ok(reply) =>
      UpdateIsLawful(s, code, reply.room, RoomResponse(reply.room));
      Outcome(reply.store, Ok(RoomResponse(reply.room)))
    case Err(e) =>
      ErrorIsLawful(s, code, e);
      Outcome(s, Err(e))
  }

  function HandleRoll(s: Store, code: string, playerId: string, die: int): (o: Outcome)
    requires Valid(s) && 1 <= die <= 6
    ensures Lawful(s, code, o)
  {
    RollPreservesValid(s, code, playerId, die);
    match RollDice(s, code, playerId, die)
    case Ok(reply) =>
      UpdateIsLawful(s, code, reply.room, RollResponse(reply.roll, reply.room));
      Outcome(reply.store, Ok(RollResponse(reply.roll, reply.room)))
    case Err(e) =>
      ErrorIsLawful(s, code, e);
      Outcome(s, Err(e))
  }

  /** Serve one request as one atomic step. */
  function Handle(s: Store, req: Request): (o: Outcome)
    requires Valid(s) && WellFormed(req)
    ensures Lawful(s, Target(req), o)
  {
    match req
    case Create(name, requested, picks, newId) => HandleCreate(s, name, requested, picks, newId)
    case Join(code, name) => HandleJoin(s, code, name)
    case Start(code) => HandleStart(s, code)
    case Roll(code, playerId, die) => HandleRoll(s, code, playerId, die)
  }

  predicate AllWellFormed(reqs: seq<Request>)
  {
    forall i :: 0 <= i < |reqs| ==> WellFormed(reqs[i])
  }

  /** The store after serving `reqs` one after another. */
  function Run(s: Store, reqs: seq<Request>): (s': Store)
    requires Valid(s) && AllWellFormed(reqs)
    ensures Valid(s')
    ensures s.Keys <= s'.Keys
    ensures forall c :: c in s ==> Evolves(s[c], s'[c])
    decreases |reqs|
  {
    if |reqs| == 0 then s
    else
      var s1 := Handle(s, reqs[0]).store;
      assert AllWellFormed(reqs[1..]);
      Run(s1, reqs[1..])
  }

  /** Every store the endpoints can produce from an empty collection keeps the
      room invariant: at most four players, colours and ids pairwise distinct,
      tokens in base, status never finished, and the turn always held by a
      member of the room. */
  lemma ReachableStoresAreValid(reqs: seq<Request>, code: string)
    requires AllWellFormed(reqs)
    requires code in Run(map[], reqs)
    ensures var r := Run(map[], reqs)[code];
      && r.code == code
      && 1 <= |r.players| <= 4
      && r.status != Finished
      && (forall i, j :: 0 <= i < j < |r.players| ==> r.players[i].color != r.players[j].color)
      && (forall i, j :: 0 <= i < j < |r.players| ==> r.players[i].id != r.players[j].id)
      && (r.status == Playing ==> r.currentTurn.Some? && r.currentTurn.value in IdsOf(r.players))
  {
    RoomInvDistinct(Run(map[], reqs)[code]);
  }
}
