/** The persisted records of a Ludo room: players, rooms, their enumerated
    fields and their default values (schemas.py). */
module Schemas {
  import opened Wrappers

  /** The four player colours of the `Player.color` literal type. */
  datatype Color = Red | Green | Yellow | Blue

  /** The fixed order in which colours are handed out (`COLORS` in main.py). */
  const Palette: seq<Color> := [Red, Green, Yellow, Blue]

  /** Position of a colour in the palette. */
  function ColorIndex(c: Color): (i: nat)
    ensures i < |Palette| && Palette[i] == c
  {
    match c
    case Red => 0
    case Green => 1
    case Yellow => 2
    case Blue => 3
  }

  /** The palette lists every colour of the `Player.color` type exactly once. */
  lemma PaletteListsEveryColorOnce()
    ensures |Palette| == 4
    ensures forall c: Color :: c in Palette
    ensures forall i, j :: 0 <= i < j < |Palette| ==> Palette[i] != Palette[j]
  {
    forall c: Color ensures c in Palette {
      assert Palette[ColorIndex(c)] == c;
    }
  }

  /** Room lifecycle states; only forward moves are intended. */
  datatype Status = Waiting | Playing | Finished

  /** Position of a status in the lifecycle waiting -> playing -> finished. */
  function StatusRank(s: Status): nat
  {
    match s
    case Waiting => 0
    case Playing => 1
    case Finished => 2
  }

  /** Token positions: -1 is the base, 0..56 the track, 57 home. */
  const BaseSquare: int := -1
  const HomeSquare: int := 57

  predicate TokenInDomain(t: int)
  {
    BaseSquare <= t <= HomeSquare
  }

  /** The four tokens of a new player, all in base. */
  const DefaultTokens: seq<int> := [BaseSquare, BaseSquare, BaseSquare, BaseSquare]

  /** One participant of a room. `id` is the `_id` of the embedded player dict. */
  datatype Player = Player(id: string, name: string, color: Color, tokens: seq<int>, isBot: bool)

  /** A player built with the schema defaults for `tokens` and `is_bot`. */
  function NewPlayer(id: string, name: string, color: Color): Player
  {
    Player(id, name, color, DefaultTokens, false)
  }

  /** A human player whose four tokens are all still in base. */
  predicate IsFreshHuman(p: Player)
  {
    p.tokens == DefaultTokens && !p.isBot
  }

  /** A new player is a human with four tokens, each in base and within the token domain. */
  lemma NewPlayerDefaults(id: string, name: string, color: Color)
    ensures var p := NewPlayer(id, name, color);
      && IsFreshHuman(p)
      && |p.tokens| == 4
      && (forall k :: 0 <= k < |p.tokens| ==> p.tokens[k] == BaseSquare && TokenInDomain(p.tokens[k]))
  {
  }

  const DefaultMaxPlayers: int := 4

  /** One game session. `id` is the storage-assigned identity, as a string. */
  datatype Room = Room(
    id: string,
    code: string,
    createdBy: string,
    status: Status,
    maxPlayers: int,
    players: seq<Player>,
    currentTurn: Option<string>,
    lastRoll: Option<int>)

  /** A room built with the schema defaults for every optional field. */
  function NewRoom(id: string, code: string, createdBy: string): Room
  {
    Room(id, code, createdBy, Waiting, DefaultMaxPlayers, [], None, None)
  }

  /** A new room is waiting for at most four players, has none yet, and has
      neither a turn holder nor a roll. */
  lemma NewRoomDefaults(id: string, code: string, createdBy: string)
    ensures var r := NewRoom(id, code, createdBy);
      && r.status == Waiting
      && StatusRank(r.status) == 0
      && r.maxPlayers == 4
      && r.players == []
      && r.currentTurn.None?
      && r.lastRoll.None?
  {
  }
}
