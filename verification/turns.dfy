/** Turn order under repeated rolls: the turn moves one seat forward in join
    order per roll and wraps around after the last player. */
module Turns {
  import opened Wrappers
  import opened Schemas
  import opened Helpers
  import opened Rooms

  // ----- Seats -----

  /** The seat after seat `k` at a table of `n`: the next one, or the first after the last. */
  function NextSeat(k: nat, n: nat): (j: nat)
    requires k < n
    ensures j < n
  {
    if k + 1 < n then k + 1 else 0
  }

  /** The next seat is `roll_dice`'s `(idx + 1) % len(ids)` (main.py:188). */
  lemma NextSeatIsSuccessorModulo(k: nat, n: nat)
    requires k < n
    ensures NextSeat(k, n) == (k + 1) % n
  {
  }

  /** The seat `m` turns after seat `k`. */
  function Advance(k: nat, m: nat, n: nat): (j: nat)
    requires k < n
    ensures j < n
    decreases m
  {
    if m == 0 then k else NextSeat(Advance(k, m - 1, n), n)
  }

  /** Within one round, advancing is plain addition that wraps once. */
  lemma {:induction false} AdvanceWithinRound(k: nat, m: nat, n: nat)
    requires k < n && m <= n
    ensures Advance(k, m, n) == if k + m < n then k + m else k + m - n
    decreases m
  {
    if m > 0 {
      AdvanceWithinRound(k, m - 1, n);
    }
  }

  /** Advancing by a then by b is advancing by a + b. */
  lemma {:induction false} AdvanceCompose(k: nat, a: nat, b: nat, n: nat)
    requires k < n
    ensures Advance(Advance(k, a, n), b, n) == Advance(k, a + b, n)
    decreases b
  {
    if b > 0 {
      AdvanceCompose(k, a, b - 1, n);
    }
  }

  /** The seat order repeats with a period of one round. */
  lemma AdvancePeriodic(k: nat, m: nat, n: nat)
    requires k < n
    ensures Advance(k, m + n, n) == Advance(k, m, n)
  {
    AdvanceWithinRound(k, n, n);
    AdvanceCompose(k, n, m, n);
    AdvanceCompose(k, m, n, n);
    AdvanceWithinRound(Advance(k, m, n), n, n);
  }

  // ----- Turn passing over the players' ids -----

  predicate DistinctIds(ids: seq<string>)
  {
    forall i, j :: 0 <= i < j < |ids| ==> ids[i] != ids[j]
  }

  /** Distinct ids each name exactly one seat. */
  lemma IndexOfDistinct(ids: seq<string>, k: nat)
    requires DistinctIds(ids) && k < |ids|
    ensures IndexOf(ids, ids[k]) == k
  {
  }

  /** The id holding the turn after `current` has rolled (`next_id` in `roll_dice`). */
  function PassTurn(ids: seq<string>, current: string): (next: string)
    requires current in ids
    ensures next in ids
    ensures next == ids[(IndexOf(ids, current) + 1) % |ids|]
  {
    NextSeatIsSuccessorModulo(IndexOf(ids, current), |ids|);
    ids[NextSeat(IndexOf(ids, current), |ids|)]
  }

  /** The turn holder after `m` rolls starting with `current`. */
  function TurnAfter(ids: seq<string>, current: string, m: nat): (t: string)
    requires current in ids
    ensures t in ids
    decreases m
  {
    if m == 0 then current else PassTurn(ids, TurnAfter(ids, current, m - 1))
  }

  /** With distinct ids, m rolls move the turn m seats forward. */
  lemma {:induction false} TurnAfterAdvances(ids: seq<string>, current: string, m: nat)
    requires DistinctIds(ids) && current in ids
    ensures IndexOf(ids, TurnAfter(ids, current, m)) == Advance(IndexOf(ids, current), m, |ids|)
    decreases m
  {
    if m > 0 {
      TurnAfterAdvances(ids, current, m - 1);
      var j := NextSeat(IndexOf(ids, TurnAfter(ids, current, m - 1)), |ids|);
      IndexOfDistinct(ids, j);
    }
  }

  /** Every player gets one turn per round: the turn is back with the starting
      player after exactly as many rolls as there are players, and not before. */
  lemma FullRound(ids: seq<string>, current: string, m: nat)
    requires DistinctIds(ids) && current in ids && m <= |ids|
    ensures TurnAfter(ids, current, m) == current <==> m == 0 || m == |ids|
  {
    var k := IndexOf(ids, current);
    TurnAfterAdvances(ids, current, m);
    AdvanceWithinRound(k, m, |ids|);
    IndexOfDistinct(ids, k);
  }

  /** Turn passing is cyclic for ever: m + n rolls leave the turn where m rolls do. */
  lemma TurnOrderPeriodic(ids: seq<string>, current: string, m: nat)
    requires DistinctIds(ids) && current in ids
    ensures TurnAfter(ids, current, m + |ids|) == TurnAfter(ids, current, m)
  {
    var k := IndexOf(ids, current);
    TurnAfterAdvances(ids, current, m);
    TurnAfterAdvances(ids, current, m + |ids|);
    AdvancePeriodic(k, m, |ids|);
  }

  // ----- Rolls on the room store -----

  /** A room mid-game whose turn holder is one of its players. */
  predicate Seated(r: Room)
  {
    r.status == Playing && r.currentTurn.Some? && r.currentTurn.value in IdsOf(r.players)
  }

  /** The turn holder rolls `die`: the roll succeeds, the die is recorded and
      the turn passes to the next seat; nothing else about the room changes. */
  function RollOnce(s: Store, code: string, die: int): (s': Store)
    requires code in s && Seated(s[code])
    requires 1 <= die <= 6
    ensures code in s' && Seated(s'[code])
    ensures s'[code].players == s[code].players && s'[code].id == s[code].id
    ensures s'[code].lastRoll == Some(die)
    ensures s'[code].currentTurn == Some(PassTurn(IdsOf(s[code].players), s[code].currentTurn.value))
    ensures forall c :: c in s && c != code ==> c in s' && s'[c] == s[c]
  {
    var ids := IdsOf(s[code].players);
    NextSeatIsSuccessorModulo(IndexOf(ids, s[code].currentTurn.value), |ids|);
    RollDice(s, code, s[code].currentTurn.value, die).value.store
  }

  /** The store after the turn holder rolls each of `dice` in turn. */
  function RollTurns(s: Store, code: string, dice: seq<int>): (s': Store)
    requires code in s && Seated(s[code])
    requires forall i :: 0 <= i < |dice| ==> 1 <= dice[i] <= 6
    ensures code in s' && Seated(s'[code])
    ensures s'[code].players == s[code].players && s'[code].id == s[code].id
    ensures |dice| > 0 ==> s'[code].lastRoll == Some(dice[|dice| - 1])
    ensures s'[code].currentTurn == Some(TurnAfter(IdsOf(s[code].players), s[code].currentTurn.value, |dice|))
    decreases |dice|
  {
    if |dice| == 0 then s
    else
      var front := dice[..|dice| - 1];
      assert forall i :: 0 <= i < |front| ==> front[i] == dice[i];
      RollOnce(RollTurns(s, code, front), code, dice[|dice| - 1])
  }

  /** In a started room, replaying one round of correct rolls returns the turn
      to the player who held it, and no shorter replay does. */
  lemma FullRoundReturnsToStart(s: Store, code: string, dice: seq<int>)
    requires code in s && RoomInv(s[code]) && s[code].status == Playing
    requires forall i :: 0 <= i < |dice| ==> 1 <= dice[i] <= 6
    requires |dice| <= |s[code].players|
    ensures RollTurns(s, code, dice)[code].currentTurn == s[code].currentTurn
            <==> |dice| == 0 || |dice| == |s[code].players|
  {
    var ids := IdsOf(s[code].players);
    RoomInvDistinct(s[code]);
    assert DistinctIds(ids);
    FullRound(ids, s[code].currentTurn.value, |dice|);
  }
}
