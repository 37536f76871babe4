/** The pure helpers of the room endpoints (main.py): the join-code
    generator, the colour picker and the player-id scheme. */
module Helpers {
  import opened Wrappers
  import opened Schemas

  // ----- Join codes (`_generate_code`) -----

  const CodeLength: nat := 6

  /** Size of `string.ascii_uppercase + string.digits`. */
  const AlphabetSize: nat := 36

  /** The k-th character of the code alphabet: the 26 upper-case letters
      followed by the 10 decimal digits. */
  function AlphabetChar(k: nat): (ch: char)
    requires k < AlphabetSize
    ensures IsCodeChar(ch)
  {
    if k < 26 then ('A' as int + k) as char else ('0' as int + (k - 26)) as char
  }

  predicate IsCodeChar(ch: char)
  {
    'A' <= ch <= 'Z' || '0' <= ch <= '9'
  }

  /** Where a character sits in the code alphabet. */
  function AlphabetIndex(ch: char): (k: nat)
    requires IsCodeChar(ch)
    ensures k < AlphabetSize && AlphabetChar(k) == ch
    ensures forall j: nat :: j < AlphabetSize && AlphabetChar(j) == ch ==> j == k
  {
    if 'A' <= ch <= 'Z' then ch as int - 'A' as int else ch as int - '0' as int + 26
  }

  /** Six independent draws from the alphabet, standing for the six
      `secrets.choice(alphabet)` calls. */
  predicate ValidPicks(picks: seq<nat>)
  {
    |picks| == CodeLength && forall i :: 0 <= i < |picks| ==> picks[i] < AlphabetSize
  }

  /** A code of the shape the generator produces. */
  predicate IsGeneratedCode(code: string)
  {
    |code| == CodeLength && forall i :: 0 <= i < |code| ==> IsCodeChar(code[i])
  }

  /** The generated join code for the given draws. */
  function GenerateCode(picks: seq<nat>): (code: string)
    requires ValidPicks(picks)
    ensures IsGeneratedCode(code)
  {
    seq(CodeLength, i requires 0 <= i < CodeLength => AlphabetChar(picks[i]))
  }

  /** The draws that produce a given code. */
  function PicksOf(code: string): (picks: seq<nat>)
    requires IsGeneratedCode(code)
    ensures ValidPicks(picks)
  {
    seq(CodeLength, i requires 0 <= i < CodeLength => AlphabetIndex(code[i]))
  }

  /** Every draw gives a different code, and every six-character code over
      A-Z0-9 can be drawn: the generator is a bijection between draws and codes. */
  lemma GenerateCodeBijective(picks: seq<nat>, code: string)
    requires ValidPicks(picks)
    requires IsGeneratedCode(code)
    ensures PicksOf(GenerateCode(picks)) == picks
    ensures GenerateCode(PicksOf(code)) == code
    ensures GenerateCode(picks) == code <==> picks == PicksOf(code)
  {
    var c := GenerateCode(picks);
    forall i | 0 <= i < CodeLength
      ensures PicksOf(c)[i] == picks[i]
    {
      assert c[i] == AlphabetChar(picks[i]);
      AlphabetCharInjective(AlphabetIndex(c[i]), picks[i]);
    }
  }

  lemma AlphabetCharInjective(j: nat, k: nat)
    requires j < AlphabetSize && k < AlphabetSize
    requires AlphabetChar(j) == AlphabetChar(k)
    ensures j == k
  {
  }

  // ----- Colours (`_next_color`) -----

  /** The colours already taken by the given players. */
  function UsedColors(players: seq<Player>): set<Color>
  {
    set p | p in players :: p.color
  }

  /** The lowest palette position at or after `k` whose colour is not used. */
  function FirstUnused(used: set<Color>, k: nat): (r: Option<nat>)
    requires k <= |Palette|
    ensures r.Some? ==> k <= r.value < |Palette| && Palette[r.value] !in used
    ensures r.Some? ==> forall j :: k <= j < r.value ==> Palette[j] in used
    ensures r.None? ==> forall j :: k <= j < |Palette| ==> Palette[j] in used
    decreases |Palette| - k
  {
    if k == |Palette| then None
    else if Palette[k] !in used then Some(k)
    else FirstUnused(used, k + 1)
  }

  /** If every palette position is used then every colour is used. */
  lemma PaletteExhausted(used: set<Color>)
    requires forall j :: 0 <= j < |Palette| ==> Palette[j] in used
    ensures forall c: Color :: c in used
  {
    forall c: Color ensures c in used {
      assert Palette[ColorIndex(c)] == c;
    }
  }

  /** The colour for the next player: the first palette colour nobody has;
      only when all four are taken, the palette entry at `|players| mod 4`. */
  function NextColor(players: seq<Player>): (c: Color)
    ensures c !in UsedColors(players) ==>
      forall j :: 0 <= j < ColorIndex(c) ==> Palette[j] in UsedColors(players)
    ensures c in UsedColors(players) ==>
      (forall c': Color :: c' in UsedColors(players)) && c == Palette[|players| % 4]
  {
    match FirstUnused(UsedColors(players), 0)
    case Some(k) => Palette[k]
    case None =>
      PaletteExhausted(UsedColors(players));
      Palette[|players| % |Palette|]
  }

  /** A colour is handed out iff some colour is free; the first player gets red. */
  lemma NextColorIsFreeWhenOneIs(players: seq<Player>)
    ensures NextColor(players) !in UsedColors(players) <==> exists c: Color :: c !in UsedColors(players)
    ensures NextColor([]) == Red
  {
    var c := NextColor([]);
    assert ColorIndex(c) == 0;
  }

  /** When the players hold the first n palette colours in order and n < 4,
      the next colour is the n-th palette entry. */
  lemma NextColorFollowsPalette(players: seq<Player>)
    requires |players| < |Palette|
    requires forall i :: 0 <= i < |players| ==> players[i].color == Palette[i]
    ensures NextColor(players) == Palette[|players|]
  {
    var n := |players|;
    var used := UsedColors(players);
    assert Palette[n] !in used by {
      assert forall i :: 0 <= i < n ==> players[i].color != Palette[n];
    }
    forall j | 0 <= j < n ensures Palette[j] in used {
      assert players[j] in players;
    }
    var c := NextColor(players);
    assert c !in used;
    assert Palette[ColorIndex(c)] == c;
  }

  // ----- Player ids (`str(room_id) + f"-p{index}"`) -----

  function DigitChar(d: nat): (ch: char)
    requires d < 10
    ensures '0' <= ch <= '9'
  {
    ('0' as int + d) as char
  }

  function DigitValue(ch: char): (d: nat)
    requires '0' <= ch <= '9'
    ensures d < 10 && DigitChar(d) == ch
  {
    ch as int - '0' as int
  }

  predicate IsDigits(s: string)
  {
    forall i :: 0 <= i < |s| ==> '0' <= s[i] <= '9'
  }

  /** Python's `str(n)` of a non-negative integer: digits, with no leading zero. */
  function Decimal(n: nat): (s: string)
    ensures |s| >= 1 && IsDigits(s)
    ensures n < 10 ==> |s| == 1
    ensures |s| == 1 || s[0] != '0'
    decreases n
  {
    if n < 10 then [DigitChar(n)] else Decimal(n / 10) + [DigitChar(n % 10)]
  }

  /** The value of a string of decimal digits. */
  function ParseDecimal(s: string): nat
    requires IsDigits(s)
    decreases |s|
  {
    if |s| == 0 then 0 else ParseDecimal(s[..|s| - 1]) * 10 + DigitValue(s[|s| - 1])
  }

  lemma {:induction false} ParseDecimalInvertsDecimal(n: nat)
    ensures ParseDecimal(Decimal(n)) == n
    decreases n
  {
    if n >= 10 {
      var s := Decimal(n);
      var front := Decimal(n / 10);
      assert s[..|s| - 1] == front;
      assert DigitValue(s[|s| - 1]) == n % 10;
      ParseDecimalInvertsDecimal(n / 10);
    } else {
      assert DigitValue(DigitChar(n)) == n;
    }
  }

  /** The id of the player at position `index` of the room whose storage id is `roomId`. */
  function PlayerId(roomId: string, index: nat): string
  {
    roomId + "-p" + Decimal(index)
  }

  /** A player id is the room id, then `-p`, then the seat number in decimal
      without a leading zero, and the seat number can be read back from it. */
  lemma PlayerIdFormat(roomId: string, index: nat)
    ensures var id := PlayerId(roomId, index);
      && |id| >= |roomId| + 3
      && id[..|roomId|] == roomId
      && id[|roomId|..|roomId| + 2] == "-p"
      && IsDigits(id[|roomId| + 2..])
      && (|id| == |roomId| + 3 || id[|roomId| + 2] != '0')
      && ParseDecimal(id[|roomId| + 2..]) == index
  {
    var id := PlayerId(roomId, index);
    assert id[|roomId| + 2..] == Decimal(index);
    ParseDecimalInvertsDecimal(index);
  }

  /** Within one room, two positions get the same player id only if they are the same position. */
  lemma PlayerIdInjective(roomId: string, i: nat, j: nat)
    ensures PlayerId(roomId, i) == PlayerId(roomId, j) <==> i == j
  {
    if PlayerId(roomId, i) == PlayerId(roomId, j) {
      var k := |roomId| + 2;
      assert PlayerId(roomId, i)[k..] == Decimal(i);
      assert PlayerId(roomId, j)[k..] == Decimal(j);
      ParseDecimalInvertsDecimal(i);
      ParseDecimalInvertsDecimal(j);
    }
  }
}
