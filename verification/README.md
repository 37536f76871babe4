# Ludo World rooms: a Dafny model of the room/turn state machine

The Ludo World backend keeps game rooms in a document collection. A room is
created with its creator as the first player. Other players join it while it
is waiting. Once it has at least two players it is started, and then the
players roll the die in join order. This project models that core as pure
functions over an immutable store, and proves what the endpoints promise.

- `wrappers.dfy` (`Wrappers`): `Option` for unset fields, `Result` for an
  endpoint's value or error.
- `schemas.dfy` (`Schemas`): the `Player` and `Room` records, the colour and
  status enumerations, the palette order, the token domain (-1 base, 0..56
  track, 57 home) and the schema defaults.
- `helpers.dfy` (`Helpers`): the join-code generator, the colour picker and
  the player-id scheme `<room id>-p<seat>`, including Python's `str` of a
  seat number and its inverse.
- `rooms.dfy` (`Rooms`): the error taxonomy and its HTTP statuses, the room
  store (a map from join code to room), the room invariant, the four
  endpoints (create, join, start, roll), and one lemma per endpoint showing
  that it keeps the store valid.
- `turns.dfy` (`Turns`): turn passing over the players' ids, and repeated
  rolls on the store. The turn moves one seat per roll and comes back to the
  starting player after exactly one round.
- `server.dfy` (`Server`): the endpoints as one request handler. Each request
  is one atomic step. A failed request leaves the store as it was. Only the
  addressed room changes, and rooms only evolve forward. Every store reachable
  from an empty collection satisfies the invariant.

Random choices and storage-assigned values are inputs:
- the six alphabet draws of the code generator (`picks`, each below 36);
- the die value (`die`, in 1..6);
- the storage id of a new room (`newId`, an opaque string).

Details of the endpoints the model keeps:
- A join is refused as full when the player count is at least `max_players`
  (`>=`); under the invariant this is the same as being equal to it.
- A code that collides with an existing room, requested or generated, is
  refused; no new code is drawn.
- An empty requested code counts as no code (Python's `or`), so a code is
  generated for it.
- Join refuses a started room with "Game already started", while start says
  "Already started". These are two error constructors.
- `created_by` is always the literal `"host"`, not a player id.

## Model

| member | source | states |
|---|---|---|
| Schemas.PaletteListsEveryColorOnce | schemas.py:45 | The palette has four entries, contains every value of the colour type, and no colour twice: `COLORS` and the `color` literal agree. |
| Schemas.NewPlayerDefaults | schemas.py:43-48 | A player built with the defaults is human, with four tokens, each -1 (base) and within the -1..57 domain. |
| Schemas.NewRoomDefaults | schemas.py:50-57 | A new room is waiting, allows 4 players, has no players, and has no turn holder and no last roll. |
| Helpers.AlphabetChar | main.py:74 | Every alphabet position gives an upper-case letter or a digit. |
| Helpers.AlphabetIndex | main.py:74 | Every letter or digit sits at exactly one alphabet position, and that position maps back to it. |
| Helpers.GenerateCode | main.py:73-75 | A generated code has exactly 6 characters, each in A-Z or 0-9. |
| Helpers.GenerateCodeBijective | main.py:73-75 | Draws and codes correspond one to one: different draws give different codes, and every 6-character A-Z0-9 code can be drawn. |
| Helpers.FirstUnused | main.py:82-84 | The scan returns the lowest palette position whose colour is unused, with every earlier one used; or nothing, when all are used. |
| Helpers.NextColor | main.py:80-85 | The colour is unused and every earlier palette colour is used; or all four colours are used, and it is the palette entry at `len(players) mod 4`. |
| Helpers.NextColorIsFreeWhenOneIs | main.py:80-85 | The picked colour is free exactly when some colour is free, and the first player of an empty list gets red. |
| Helpers.NextColorFollowsPalette | main.py:78-85 | When the players hold the first n palette colours in order and n < 4, the next colour is palette entry n. |
| Helpers.Decimal | main.py:130 | The seat number in a player id is a non-empty string of decimal digits with no leading zero: one digit below 10, and a first digit other than 0 otherwise. |
| Helpers.ParseDecimalInvertsDecimal | main.py:130 | Reading back the seat number's digits gives the seat number. |
| Helpers.PlayerIdFormat | main.py:130 | A player id is the room id, then `-p`, then the seat number in decimal digits with no leading zero (a lone digit, or a first digit other than 0), and those digits read back as the seat. |
| Helpers.PlayerIdInjective | main.py:130 | Within one room, two seats get the same player id exactly when they are the same seat. |
| Rooms.HttpStatus | main.py:121-178 | Not-found errors are 404, the turn error is 403, and every other error is 400. |
| Rooms.IdsOf | main.py:186 | The id list has one entry per player, in join order, each the id of that player. |
| Rooms.IndexOf | main.py:187 | The returned position holds the id, and no earlier position does (`list.index`). |
| Rooms.RoomInvDistinct | main.py:126-131 | In a room satisfying the invariant: at most 4 players, colours pairwise distinct, ids pairwise distinct, and every token -1 and within its domain. |
| Rooms.ChosenCode | main.py:91 | A non-empty requested code is used as given; a missing or empty one is replaced by a generated 6-character A-Z0-9 code. |
| Rooms.CreateRoom | main.py:88-115 | Fails with a duplicate-code error exactly when the chosen code is taken. Otherwise it adds exactly that code: a waiting room with `created_by` "host", 4 seats, no turn and no roll, holding one player with id `<id>-p0`, colour red, tokens all -1 and no bot flag. |
| Rooms.JoinRoom | main.py:117-141 | Errors come in the order not found, not waiting, full, each exactly under its condition. On success exactly one player is appended, with id `<id>-p<old count>`, the next colour, the given name, tokens all -1 and no bot flag. Earlier players and every other field stay unchanged. |
| Rooms.JoinKeepsInvariant | main.py:126-138 | Appending to a waiting room that is not full keeps the room invariant; the joiner's colour is palette entry n and no earlier player has it. |
| Rooms.StartGame | main.py:152-167 | Errors come in the order not found, not waiting, fewer than 2 players, each exactly under its condition. On success the status becomes playing, the turn goes to the first joiner, and nothing else changes. |
| Rooms.RollDice | main.py:169-193 | Errors come in the order not found, not playing, not the turn holder, each exactly under its condition. On success the roll is the die, in 1..6, and is stored as the last roll. The turn passes to the id after the roller's, circularly, and nothing else changes. |
| Rooms.ReplaceKeepsValid | main.py:138 | Writing back one room that keeps the invariant under its own code keeps the whole store valid. |
| Rooms.CreatePreservesValid | main.py:91-112 | A successful create keeps every room of the store valid. |
| Rooms.JoinPreservesValid | main.py:125-138 | A successful join keeps the store valid. The room only grows, and the joiner takes palette entry n, which was unused. |
| Rooms.StartPreservesValid | main.py:160-164 | A successful start keeps the store valid, the status moves forward, and the turn holder is a member. |
| Rooms.RollPreservesValid | main.py:177-189 | In a valid store the turn holder is always found among the ids. A successful roll keeps the store valid, and the room only evolves forward. |
| Turns.NextSeatIsSuccessorModulo | main.py:188 | The next seat equals `roll_dice`'s `(idx + 1) % len(ids)`. |
| Turns.AdvanceWithinRound | main.py:188 | Within one round, moving m seats on from seat k lands on k + m, wrapping once past the last seat. |
| Turns.AdvanceCompose | main.py:188 | Moving a seats and then b seats is moving a + b seats. |
| Turns.AdvancePeriodic | main.py:188 | The seat order repeats with a period of one round. |
| Turns.IndexOfDistinct | main.py:187 | With distinct ids, looking up the id at a seat gives back that seat. |
| Turns.PassTurn | main.py:185-188 | The next turn holder is one of the ids, and it is the id at position `(index of the current holder + 1) % len(ids)`. |
| Turns.TurnAfterAdvances | main.py:184-189 | With distinct ids, m rolls move the turn exactly m seats forward in join order. |
| Turns.TurnOrderPeriodic | main.py:184-189 | Turn passing repeats for ever: m + n rolls, with n players, leave the turn with the same player as m rolls. |
| Turns.FullRound | main.py:184-189 | The turn is back with the starting player after exactly as many rolls as there are players, and not after any smaller positive number. |
| Turns.RollOnce | main.py:172-189 | A roll by the turn holder succeeds and records the die. The turn passes to the next seat, the players stay the same, and every other room is untouched. |
| Turns.RollTurns | main.py:169-193 | After a sequence of correct rolls, the players are unchanged and the last die is stored. The turn holder is the one reached by passing the turn once per roll. |
| Turns.FullRoundReturnsToStart | main.py:184-189 | In a started room, one round of correct rolls returns the turn to the player who held it, and no shorter positive sequence does. |
| Server.UpdateIsLawful | main.py:138 | Writing back one evolved room, valid afterwards, is a lawful step: only that room changes, and it changes forward. |
| Server.ErrorIsLawful | main.py:121-178 | A failed request that leaves the store as it was is a lawful step. |
| Server.HandleCreate | main.py:88-115 | A create request is a lawful step. |
| Server.HandleJoin | main.py:117-141 | A join request is a lawful step. |
| Server.HandleStart | main.py:152-167 | A start request is a lawful step. |
| Server.HandleRoll | main.py:169-193 | A roll request is a lawful step. |
| Server.Handle | main.py:88-193 | Every request keeps the store valid. On error the store is unchanged; on success the reply is the stored addressed room. At most the addressed code is added, other rooms are unchanged, and rooms only gain players and move status forward. |
| Server.Run | main.py:88-193 | Any sequence of requests keeps the store valid. No room disappears, and every room only evolves forward. |
| Server.ReachableStoresAreValid | main.py:126-164 | In every store reachable from an empty one, a room has 1 to 4 players, distinct colours and ids, and is never finished. Once playing, its turn is held by one of its members. |

## Left out

- FastAPI application setup, CORS, `read_root`, `test_database` and the uvicorn entry point (main.py:11-49, 219-222): HTTP and runtime plumbing. HTTP failures are the `Error` datatype, with their status codes in `Rooms.HttpStatus`.
- `get_room` (main.py:143-150): a read-only lookup that changes nothing. The model's store is the room map itself.
- The document store, its `find_one`/`insert_one`/`update_one` calls, and the conversion of storage ids to strings: replaced by a map from code to room and an opaque `id` string per room.
- The insert-then-patch assignment of the creator's id (main.py:110-112) and the two writes of a roll (main.py:182, 189): each endpoint is one atomic step.
- `secrets.choice` and `randint` (main.py:75, 180): their results are inputs constrained to the values they can return.
- Concurrency: the lost update of two interleaved read-modify-write requests cannot arise in a sequential model, where requests are linearised.
- Chat (`post_chat`, `get_chat`, the `Message` schema): storage plumbing outside the room state machine.
- The `User` and `Product` schemas: unused examples.
- Request body models (`CreateRoomRequest`, `JoinRoomRequest`, `RollDiceRequest`): their fields become the endpoint parameters, except `RollDiceRequest.room_code`, which `roll_dice` never reads. It looks the room up by the path `code` (main.py:170-172), and the model keeps only that code.
- Rooms.RollDice: requires the turn holder to be among the room's ids when the turn check passes. Python's `ids.index` would otherwise raise after `last_roll` was already written. `Rooms.RollPreservesValid` proves this requirement holds in every valid store, so every reachable one.
- Token movement, capture and winning: `main.py` has no rules for them. No endpoint sets a room to finished.
