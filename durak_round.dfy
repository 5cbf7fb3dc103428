/**
 * The end of a round of Durak: the table goes to the discard pile, hands
 * are refilled from the front of the deck, the roles move round the table
 * skipping players who are out, and the game ends when at most one player
 * is left in it.  Also the accounting of cards across hands, deck, table
 * and discard pile that every transition keeps.
 */
module DurakRound {
  import opened Wrappers
  import opened Cards
  import opened DurakState

  // ---------------------------------------------------------------------------
  // Going round the table
  // ---------------------------------------------------------------------------

  /** A seat the skip loops stop at: its player is not out and it is not the seat to avoid. */
  predicate Eligible(players: seq<PlayerState>, i: nat, avoid: Option<nat>)
    requires i < |players|
  {
    !players[i].isOut && avoid != Some(i)
  }

  predicate HasEligible(players: seq<PlayerState>, avoid: Option<nat>) {
    exists i :: 0 <= i < |players| && Eligible(players, i, avoid)
  }

  /** The first eligible seat among `from` and the `steps` seats after it, going round the table. */
  function SeatFrom(players: seq<PlayerState>, from: nat, avoid: Option<nat>, steps: nat): (r: Option<nat>)
    requires from < |players|
    ensures r.Some? ==> r.value < |players| && Eligible(players, r.value, avoid)
    decreases steps
  {
    if Eligible(players, from, avoid) then Some(from)
    else if steps == 0 then None
    else SeatFrom(players, (from + 1) % |players|, avoid, steps - 1)
  }

  /** How many steps round the table lead from seat `from` to seat `i`. */
  function Distance(from: nat, i: nat, n: nat): nat
    requires from < n && i < n
  {
    if i >= from then i - from else i + n - from
  }

  lemma NextSeatIndex(from: nat, n: nat)
    requires from < n
    ensures (from + 1) % n == if from + 1 == n then 0 else from + 1
  {
  }

  /** An eligible seat within reach is found. */
  lemma {:induction false} SeatFound(players: seq<PlayerState>, from: nat, avoid: Option<nat>, steps: nat, i: nat)
    requires from < |players| && i < |players| && Eligible(players, i, avoid)
    requires Distance(from, i, |players|) <= steps
    ensures SeatFrom(players, from, avoid, steps).Some?
    decreases steps
  {
    if !Eligible(players, from, avoid) {
      NextSeatIndex(from, |players|);
      SeatFound(players, (from + 1) % |players|, avoid, steps - 1, i);
    }
  }

  /** A whole turn of the table finds an eligible seat whenever there is one. */
  lemma SeatFoundInOneTurn(players: seq<PlayerState>, from: nat, avoid: Option<nat>)
    requires from < |players| && HasEligible(players, avoid)
    ensures SeatFrom(players, from, avoid, |players| - 1).Some?
  {
    var i :| 0 <= i < |players| && Eligible(players, i, avoid);
    SeatFound(players, from, avoid, |players| - 1, i);
  }

  /**
   * The skip loops: start at `from` and move one seat on, wrapping round,
   * until the seat is eligible.  Some seat must be, or the loop never ends.
   */
  function NextSeat(players: seq<PlayerState>, from: nat, avoid: Option<nat>): (r: nat)
    requires from < |players| && HasEligible(players, avoid)
    ensures r < |players| && Eligible(players, r, avoid)
  {
    SeatFoundInOneTurn(players, from, avoid);
    SeatFrom(players, from, avoid, |players| - 1).value
  }

  /** The skip loop as the source runs it. */
  method SkipLoop(players: seq<PlayerState>, from: nat, avoid: Option<nat>) returns (idx: nat)
    requires from < |players| && HasEligible(players, avoid)
    ensures idx == NextSeat(players, from, avoid)
  {
    SeatFoundInOneTurn(players, from, avoid);
    idx := from;
    ghost var left: nat := |players| - 1;
    while avoid == Some(idx) || players[idx].isOut
      invariant idx < |players| && left <= |players| - 1
      invariant SeatFrom(players, idx, avoid, left) == SeatFrom(players, from, avoid, |players| - 1)
      invariant SeatFrom(players, idx, avoid, left).Some?
      decreases left
    {
      assert !Eligible(players, idx, avoid) && left > 0;
      idx := (idx + 1) % |players|;
      left := left - 1;
    }
  }

  /** What `end_round` needs: a defender's seat and some player not out, so that the search for the next defender ends. */
  predicate CanEndRound(s: GameState) {
    s.defenderIndex.Some? && HasEligible(s.players, None)
  }

  /** Changing a player in any field but `isOut` keeps the seats eligible as they were. */
  lemma EligibleAfterUpdate(players: seq<PlayerState>, pi: nat, q: PlayerState, avoid: Option<nat>)
    requires pi < |players| && q.isOut == players[pi].isOut && HasEligible(players, avoid)
    ensures HasEligible(players[pi := q], avoid)
  {
    var i :| 0 <= i < |players| && Eligible(players, i, avoid);
    assert Eligible(players[pi := q], i, avoid);
  }

  // ---------------------------------------------------------------------------
  // Refilling hands
  // ---------------------------------------------------------------------------

  /** The refill of one hand: cards from the front of the deck until the hand reaches the threshold or the deck runs out. */
  function Drawn(hand: seq<Card>, deck: seq<Card>, threshold: int): (r: (seq<Card>, seq<Card>)) {
    var want := if threshold > |hand| then threshold - |hand| else 0;
    var k := if want < |deck| then want else |deck|;
    (hand + deck[..k], deck[k..])
  }

  /** A refilled hand is the old hand followed by the front of the deck; it reaches the threshold unless the deck ran out, and never passes it. */
  lemma DrawnFills(hand: seq<Card>, deck: seq<Card>, threshold: int)
    ensures var (h, d) := Drawn(hand, deck, threshold);
      && h[..|hand|] == hand && h[|hand|..] + d == deck
      && (|h| >= threshold || d == [])
      && (|h| > |hand| ==> |h| <= threshold)
  {
    var (h, d) := Drawn(hand, deck, threshold);
    assert h[..|hand|] == hand;
    assert h[|hand|..] + d == deck;
  }

  /** The `pop(0)` loop of `end_round`. */
  method DrawLoop(hand: seq<Card>, deck: seq<Card>, threshold: int) returns (h: seq<Card>, d: seq<Card>)
    ensures (h, d) == Drawn(hand, deck, threshold)
  {
    h := hand;
    d := deck;
    while |h| < threshold && d != []
      invariant |hand| <= |h| <= |hand| + |deck|
      invariant h == hand + deck[..|h| - |hand|] && d == deck[|h| - |hand|..]
      invariant |h| == |hand| || |h| <= threshold
      decreases |d|
    {
      assert deck[..|h| - |hand| + 1] == deck[..|h| - |hand|] + [d[0]];
      h := h + [d[0]];
      d := d[1..];
    }
  }

  /** One player at the end of a round: roles set, passes cleared, and, unless out, the hand refilled and the player out when hand and deck are both empty. */
  function Refreshed(p: PlayerState, i: nat, deck: seq<Card>, threshold: int, attacker: Option<nat>, defender: nat): (PlayerState, seq<Card>) {
    if p.isOut then (p.(isAttacker := attacker == Some(i), isDefender := i == defender, passCount := 0), deck)
    else
      var (h, d) := Drawn(p.hand, deck, threshold);
      (p.(hand := h, isAttacker := attacker == Some(i), isDefender := i == defender, isOut := |h| == 0 && |d| == 0, passCount := 0), d)
  }

  /** The first k players refreshed in seat order, each drawing from what the previous ones left. */
  function Refill(players: seq<PlayerState>, deck: seq<Card>, threshold: int, attacker: Option<nat>, defender: nat, k: nat): (r: (seq<PlayerState>, seq<Card>))
    requires k <= |players|
    ensures |r.0| == k
  {
    if k == 0 then ([], deck)
    else
      var prev := Refill(players, deck, threshold, attacker, defender, k - 1);
      var next := Refreshed(players[k - 1], k - 1, prev.1, threshold, attacker, defender);
      (prev.0 + [next.0], next.1)
  }

  /** The refill loop of `end_round`. */
  method RefillLoop(players: seq<PlayerState>, deck: seq<Card>, threshold: int, attacker: Option<nat>, defender: nat)
    returns (refilled: seq<PlayerState>, rest: seq<Card>)
    ensures (refilled, rest) == Refill(players, deck, threshold, attacker, defender, |players|)
  {
    refilled := [];
    rest := deck;
    for i := 0 to |players|
      invariant (refilled, rest) == Refill(players, deck, threshold, attacker, defender, i)
    {
      var p := players[i];
      if p.isOut {
        refilled := refilled + [p.(isAttacker := attacker == Some(i), isDefender := i == defender, passCount := 0)];
      } else {
        var h, d := DrawLoop(p.hand, rest, threshold);
        rest := d;
        refilled := refilled + [p.(hand := h, isAttacker := attacker == Some(i), isDefender := i == defender, isOut := |h| == 0 && |rest| == 0, passCount := 0)];
      }
    }
  }

  /** One refreshed player keeps the old hand as the start of the new one and takes its new cards from the front of the deck. */
  lemma RefreshedDraws(p: PlayerState, i: nat, deck: seq<Card>, threshold: int, attacker: Option<nat>, defender: nat)
    ensures var (q, d) := Refreshed(p, i, deck, threshold, attacker, defender);
      && |p.hand| <= |q.hand| && q.hand[..|p.hand|] == p.hand
      && q.hand[|p.hand|..] + d == deck
      && (!p.isOut ==> |q.hand| >= threshold || d == [])
  {
    if !p.isOut {
      DrawnFills(p.hand, deck, threshold);
    } else {
      assert p.hand[|p.hand|..] == [];
    }
  }

  /** Refilling keeps each hand as the start of the new one. */
  lemma {:induction false} RefillKeepsHands(players: seq<PlayerState>, deck: seq<Card>, threshold: int, attacker: Option<nat>, defender: nat, k: nat)
    requires k <= |players|
    ensures var r := Refill(players, deck, threshold, attacker, defender, k);
      forall i :: 0 <= i < k ==> |players[i].hand| <= |r.0[i].hand| && r.0[i].hand[..|players[i].hand|] == players[i].hand
  {
    if k > 0 {
      RefillKeepsHands(players, deck, threshold, attacker, defender, k - 1);
      var prev := Refill(players, deck, threshold, attacker, defender, k - 1);
      RefreshedDraws(players[k - 1], k - 1, prev.1, threshold, attacker, defender);
    }
  }

  /** Refilling sets the roles to the given seats, clears the passes and brings nobody back who was out. */
  lemma {:induction false} RefillSetsRoles(players: seq<PlayerState>, deck: seq<Card>, threshold: int, attacker: Option<nat>, defender: nat, k: nat)
    requires k <= |players|
    ensures var r := Refill(players, deck, threshold, attacker, defender, k);
      forall i :: 0 <= i < k ==>
        && (r.0[i].isAttacker <==> attacker == Some(i)) && (r.0[i].isDefender <==> i == defender)
        && r.0[i].passCount == 0 && (players[i].isOut ==> r.0[i].isOut)
        && (!players[i].isOut && players[i].hand != [] ==> !r.0[i].isOut)
  {
    if k > 0 {
      RefillSetsRoles(players, deck, threshold, attacker, defender, k - 1);
    }
  }

  /** What the refill leaves of the deck is its back. */
  lemma {:induction false} RefillLeavesBack(players: seq<PlayerState>, deck: seq<Card>, threshold: int, attacker: Option<nat>, defender: nat, k: nat)
    requires k <= |players|
    ensures var r := Refill(players, deck, threshold, attacker, defender, k);
      |r.1| <= |deck| && r.1 == deck[|deck| - |r.1|..]
  {
    if k > 0 {
      RefillLeavesBack(players, deck, threshold, attacker, defender, k - 1);
      var prev := Refill(players, deck, threshold, attacker, defender, k - 1);
      RefreshedDraws(players[k - 1], k - 1, prev.1, threshold, attacker, defender);
      var d := Refreshed(players[k - 1], k - 1, prev.1, threshold, attacker, defender).1;
      assert d == prev.1[|prev.1| - |d|..];
    }
  }

  /** Every player still in the game has at least the threshold after the refill, unless the deck is empty. */
  lemma {:induction false} RefillFills(players: seq<PlayerState>, deck: seq<Card>, threshold: int, attacker: Option<nat>, defender: nat, k: nat)
    requires k <= |players|
    ensures var r := Refill(players, deck, threshold, attacker, defender, k);
      forall i :: 0 <= i < k && !players[i].isOut ==> |r.0[i].hand| >= threshold || r.1 == []
  {
    if k > 0 {
      RefillFills(players, deck, threshold, attacker, defender, k - 1);
      var prev := Refill(players, deck, threshold, attacker, defender, k - 1);
      var p := players[k - 1];
      RefreshedDraws(p, k - 1, prev.1, threshold, attacker, defender);
    }
  }

  // ---------------------------------------------------------------------------
  // Counting cards
  // ---------------------------------------------------------------------------

  /** The cards in the players' hands. */
  function Held(players: seq<PlayerState>): multiset<Card> {
    if players == [] then multiset{}
    else Held(players[..|players| - 1]) + multiset(players[|players| - 1].hand)
  }

  /** Every card in the game: hands, deck, table and discard pile. */
  function AllCards(s: GameState): multiset<Card> {
    Held(s.players) + multiset(s.deck) + multiset(s.table.attack) + multiset(s.table.defense) + multiset(s.discard)
  }

  lemma {:induction false} HeldUpdate(players: seq<PlayerState>, i: nat, q: PlayerState)
    requires i < |players|
    ensures Held(players[i := q]) + multiset(players[i].hand) == Held(players) + multiset(q.hand)
  {
    var n := |players| - 1;
    var ps := players[i := q];
    var init, init' := players[..n], ps[..n];
    var last := multiset(players[n].hand);
    assert Held(players) == Held(init) + last;
    if i < n {
      assert init' == init[i := q];
      HeldUpdate(init, i, q);
      assert Held(ps) == Held(init') + last;
      SwapOne(Held(init'), Held(init), multiset(players[i].hand), multiset(q.hand), last);
    } else {
      assert init' == init;
      assert Held(ps) == Held(init) + multiset(q.hand);
    }
  }

  /** Replacing one part of a sum of multisets changes the sum by the same parts. */
  lemma SwapOne(a: multiset<Card>, b: multiset<Card>, out: multiset<Card>, into: multiset<Card>, rest: multiset<Card>)
    requires a + out == b + into
    ensures a + rest + out == b + rest + into
  {
    forall c ensures (a + rest + out)[c] == (b + rest + into)[c] {
      assert (a + out)[c] == (b + into)[c];
    }
  }

  lemma {:induction false} HeldSameHands(ps: seq<PlayerState>, qs: seq<PlayerState>)
    requires |ps| == |qs| && forall i :: 0 <= i < |ps| ==> ps[i].hand == qs[i].hand
    ensures Held(ps) == Held(qs)
  {
    if ps != [] {
      HeldSameHands(ps[..|ps| - 1], qs[..|qs| - 1]);
    }
  }

  /** Refilling moves cards from the deck into hands and loses none. */
  lemma {:induction false} RefillConserves(players: seq<PlayerState>, deck: seq<Card>, threshold: int, attacker: Option<nat>, defender: nat, k: nat)
    requires k <= |players|
    ensures var r := Refill(players, deck, threshold, attacker, defender, k);
      Held(r.0) + multiset(r.1) == Held(players[..k]) + multiset(deck)
  {
    if k > 0 {
      var front, p := players[..k - 1], players[k - 1];
      assert players[..k] == front + [p];
      RefillConserves(players, deck, threshold, attacker, defender, k - 1);
      var prev := Refill(players, deck, threshold, attacker, defender, k - 1);
      var next := Refreshed(p, k - 1, prev.1, threshold, attacker, defender);
      RefillStep(players, deck, threshold, attacker, defender, k);
      RefreshedConserves(p, k - 1, prev.1, threshold, attacker, defender);
      HeldAppend(prev.0, next.0);
      HeldAppend(front, p);
      MovedBetween(Held(prev.0), Held(front), multiset(prev.1), multiset(deck),
        multiset(next.0.hand), multiset(p.hand), multiset(next.1));
    }
  }

  lemma RefillStep(players: seq<PlayerState>, deck: seq<Card>, threshold: int, attacker: Option<nat>, defender: nat, k: nat)
    requires 0 < k <= |players|
    ensures var prev := Refill(players, deck, threshold, attacker, defender, k - 1);
      var next := Refreshed(players[k - 1], k - 1, prev.1, threshold, attacker, defender);
      Refill(players, deck, threshold, attacker, defender, k) == (prev.0 + [next.0], next.1)
  {
  }

  /** Two moves of cards that each lose none chain into one that loses none. */
  lemma MovedBetween(now: multiset<Card>, was: multiset<Card>, mid: multiset<Card>, deck: multiset<Card>,
                     drawn: multiset<Card>, kept: multiset<Card>, rest: multiset<Card>)
    requires now + mid == was + deck && drawn + rest == kept + mid
    ensures now + drawn + rest == was + kept + deck
  {
    forall c ensures (now + drawn + rest)[c] == (was + kept + deck)[c] {
      assert (now + mid)[c] == (was + deck)[c];
      assert (drawn + rest)[c] == (kept + mid)[c];
    }
  }

  lemma HeldAppend(players: seq<PlayerState>, p: PlayerState)
    ensures Held(players + [p]) == Held(players) + multiset(p.hand)
  {
    assert (players + [p])[..|players|] == players;
  }

  lemma RefreshedConserves(p: PlayerState, i: nat, deck: seq<Card>, threshold: int, attacker: Option<nat>, defender: nat)
    ensures var (q, d) := Refreshed(p, i, deck, threshold, attacker, defender);
      multiset(q.hand) + multiset(d) == multiset(p.hand) + multiset(deck)
  {
    RefreshedDraws(p, i, deck, threshold, attacker, defender);
    var (q, d) := Refreshed(p, i, deck, threshold, attacker, defender);
    assert q.hand == p.hand + q.hand[|p.hand|..];
  }

  // ---------------------------------------------------------------------------
  // The end of a round
  // ---------------------------------------------------------------------------

  /**
   * The body of `end_round` once the next defender's seat is chosen: the
   * defender attacks next if the defence held, otherwise the attacker keeps
   * attacking.  The table is discarded, hands are refilled in seat order,
   * and the game ends when at most one player is left in it, that player
   * being the loser.
   */
  function EndRoundWith(s: GameState, defenderWon: bool, defender: nat): (r: GameState)
    requires defender < |s.players|
    ensures r.table == EmptyTable && r.currentRound == s.currentRound + 1
  {
    var n := |s.players|;
    var attacker := NextAttacker(s, defenderWon);
    var refilled := Refill(s.players, s.deck, s.rules.refillThreshold, attacker, defender, n);
    var inGame := PlayersInGame(refilled.0);
    var common := s.(players := refilled.0, deck := refilled.1, discard := s.discard + s.table.attack + s.table.defense,
                     table := EmptyTable, currentRound := s.currentRound + 1);
    if |inGame| <= 1 then
      common.(stage := GameEnd, loserId := if inGame == [] then None else Some(inGame[0].id))
    else
      common.(attackerIndex := attacker, defenderIndex := Some(defender), activeIndex := attacker, stage := Attack)
  }

  /** The attacker `end_round` picks: the defender when the defence held, else the attacker. */
  function NextAttacker(s: GameState, defenderWon: bool): Option<nat> {
    if defenderWon then s.defenderIndex else s.attackerIndex
  }

  /**
   * The seat `end_round` gives the defence to as written: the first player
   * after the old defender who is not out, whoever attacks next.
   */
  function NextDefenderAsWritten(s: GameState): (r: nat)
    requires CanEndRound(s)
    ensures r < |s.players| && !s.players[r].isOut
  {
    NextSeat(s.players, (s.defenderIndex.value + 1) % |s.players|, None)
  }

  /** `end_round` as written, with the defender chosen by `NextDefenderAsWritten`. */
  function EndRoundAsWritten(s: GameState, defenderWon: bool): (r: GameState)
    requires CanEndRound(s)
    ensures r.table == EmptyTable && r.currentRound == s.currentRound + 1
  {
    EndRoundWith(s, defenderWon, NextDefenderAsWritten(s))
  }

  /**
   * With two players, a defender who takes the cards defends again as
   * written only in name: the attacker keeps the attack and the search for
   * the next defender, starting after the old defender, wraps round to the
   * attacker's own seat, so one player attacks and defends.
   */
  lemma EndRoundAsWrittenSameSeat(s: GameState)
    requires |s.players| == 2 && s.attackerIndex == Some(0) && s.defenderIndex == Some(1)
    requires !s.players[0].isOut && !s.players[1].isOut && s.players[0].hand != [] && s.players[1].hand != []
    ensures CanEndRound(s)
    ensures var r := EndRoundAsWritten(s, false);
      r.stage == Attack && r.attackerIndex == Some(0) && r.defenderIndex == Some(0)
  {
    assert Eligible(s.players, 0, None);
    assert NextDefenderAsWritten(s) == 0;
    var f := Refill(s.players, s.deck, s.rules.refillThreshold, Some(0), 0, 2);
    RefillSetsRoles(s.players, s.deck, s.rules.refillThreshold, Some(0), 0, 2);
    assert !f.0[0].isOut && !f.0[1].isOut;
    InGameAtMostOne(f.0);
  }

  /**
   * `end_round` with the next defender chosen as evidently intended: the
   * first player after the old defender who is not out and is not the next
   * attacker, when there is such a player.
   */
  function EndRound(s: GameState, defenderWon: bool): (r: GameState)
    requires CanEndRound(s)
    ensures r.table == EmptyTable && r.currentRound == s.currentRound + 1
  {
    EndRoundWith(s, defenderWon, NextDefender(s, defenderWon))
  }

  /** The seat `end_round` gives the defence to: never the next attacker's while anyone else is still in the game. */
  function NextDefender(s: GameState, defenderWon: bool): (r: nat)
    requires CanEndRound(s)
    ensures r < |s.players| && !s.players[r].isOut
    ensures HasEligible(s.players, NextAttacker(s, defenderWon)) ==> Some(r) != NextAttacker(s, defenderWon)
  {
    var from := (s.defenderIndex.value + 1) % |s.players|;
    var attacker := NextAttacker(s, defenderWon);
    if HasEligible(s.players, attacker) then NextSeat(s.players, from, attacker) else NextSeat(s.players, from, None)
  }

  /** Avoiding a seat changes the search only when the search would have stopped at that seat. */
  lemma {:induction false} SeatFromAvoid(players: seq<PlayerState>, from: nat, a: nat, steps: nat)
    requires from < |players|
    ensures SeatFrom(players, from, None, steps) != Some(a) ==>
              SeatFrom(players, from, Some(a), steps) == SeatFrom(players, from, None, steps)
    decreases steps
  {
    if !Eligible(players, from, None) && steps > 0 {
      SeatFromAvoid(players, (from + 1) % |players|, a, steps - 1);
    }
  }

  /** The corrected choice of defender differs from the source's only where the source hands the defence to the next attacker. */
  lemma NextDefenderCorrects(s: GameState, defenderWon: bool)
    requires CanEndRound(s)
    ensures Some(NextDefenderAsWritten(s)) != NextAttacker(s, defenderWon) ==> NextDefender(s, defenderWon) == NextDefenderAsWritten(s)
    ensures Some(NextDefenderAsWritten(s)) != NextAttacker(s, defenderWon) ==> EndRound(s, defenderWon) == EndRoundAsWritten(s, defenderWon)
  {
    var a := NextAttacker(s, defenderWon);
    var from := (s.defenderIndex.value + 1) % |s.players|;
    var n := |s.players|;
    if a.Some? && Some(NextDefenderAsWritten(s)) != a {
      SeatFromAvoid(s.players, from, a.value, n - 1);
    }
  }

  /** The game ends exactly when at most one player is left in it, and then the loser is that player; otherwise play goes on with an attack. */
  lemma EndRoundStage(s: GameState, defenderWon: bool)
    requires CanEndRound(s)
    ensures var r := EndRound(s, defenderWon);
      && (r.stage == GameEnd <==> |PlayersInGame(r.players)| <= 1)
      && (r.stage == GameEnd || r.stage == Attack)
      && (GameEnded(r) <==> r.stage == GameEnd)
      && (r.stage == GameEnd ==> r.loserId == (if PlayersInGame(r.players) == [] then None else Some(PlayersInGame(r.players)[0].id)))
  {
  }

  /** When play goes on, the defender of a held defence attacks, else the attacker stays; the new defender is a player who was not out, and never the new attacker. */
  lemma EndRoundRoles(s: GameState, defenderWon: bool)
    requires CanEndRound(s)
    ensures var r := EndRound(s, defenderWon);
      r.stage == Attack ==>
        && r.attackerIndex == (if defenderWon then s.defenderIndex else s.attackerIndex)
        && r.activeIndex == r.attackerIndex
        && r.defenderIndex == Some(NextDefender(s, defenderWon))
        && !s.players[NextDefender(s, defenderWon)].isOut
        && r.defenderIndex != r.attackerIndex
  {
    var n := |s.players|;
    var a := NextAttacker(s, defenderWon);
    var d := NextDefender(s, defenderWon);
    var f := Refill(s.players, s.deck, s.rules.refillThreshold, a, d, n);
    assert EndRound(s, defenderWon) == EndRoundWith(s, defenderWon, d);
    if |PlayersInGame(f.0)| > 1 {
      assert HasEligible(s.players, a) by {
        InGameAtMostOne(f.0);
        var i, j :| 0 <= i < j < n && !f.0[i].isOut && !f.0[j].isOut;
        RefillSetsRoles(s.players, s.deck, s.rules.refillThreshold, a, d, n);
        assert !s.players[i].isOut && !s.players[j].isOut;
        if a == Some(i) {
          assert Eligible(s.players, j, a);
        } else {
          assert Eligible(s.players, i, a);
        }
      }
    }
  }

  /** The players and deck `end_round` leaves are those of the refill. */
  lemma EndRoundRefill(s: GameState, defenderWon: bool)
    requires CanEndRound(s)
    ensures var r := EndRound(s, defenderWon);
      var f := Refill(s.players, s.deck, s.rules.refillThreshold, NextAttacker(s, defenderWon), NextDefender(s, defenderWon), |s.players|);
      r.players == f.0 && r.deck == f.1 && r.discard == s.discard + s.table.attack + s.table.defense
  {
  }

  /** Each hand keeps its cards and is topped up to the threshold unless the deck runs out; the passes are cleared. */
  lemma EndRoundRefills(s: GameState, defenderWon: bool)
    requires CanEndRound(s)
    ensures var r := EndRound(s, defenderWon);
      && |r.players| == |s.players|
      && (forall i :: 0 <= i < |s.players| ==>
            |s.players[i].hand| <= |r.players[i].hand| && r.players[i].hand[..|s.players[i].hand|] == s.players[i].hand)
      && (forall i :: 0 <= i < |s.players| && !s.players[i].isOut ==> |r.players[i].hand| >= s.rules.refillThreshold || r.deck == [])
      && (forall i :: 0 <= i < |s.players| ==> r.players[i].passCount == 0)
  {
    var n := |s.players|;
    EndRoundRefill(s, defenderWon);
    RefillKeepsHands(s.players, s.deck, s.rules.refillThreshold, NextAttacker(s, defenderWon), NextDefender(s, defenderWon), n);
    RefillFills(s.players, s.deck, s.rules.refillThreshold, NextAttacker(s, defenderWon), NextDefender(s, defenderWon), n);
    RefillSetsRoles(s.players, s.deck, s.rules.refillThreshold, NextAttacker(s, defenderWon), NextDefender(s, defenderWon), n);
  }

  /** The new cards come from the front of the deck: what is left is its back. */
  lemma EndRoundDrawsFromFront(s: GameState, defenderWon: bool)
    requires CanEndRound(s)
    ensures var r := EndRound(s, defenderWon);
      |r.deck| <= |s.deck| && r.deck == s.deck[|s.deck| - |r.deck|..]
  {
    EndRoundRefill(s, defenderWon);
    RefillLeavesBack(s.players, s.deck, s.rules.refillThreshold, NextAttacker(s, defenderWon), NextDefender(s, defenderWon), |s.players|);
  }

  /** Ending a round loses no card and makes none. */
  lemma EndRoundConserves(s: GameState, defenderWon: bool)
    requires CanEndRound(s)
    ensures AllCards(EndRound(s, defenderWon)) == AllCards(s)
  {
    var n := |s.players|;
    EndRoundRefill(s, defenderWon);
    RefillConserves(s.players, s.deck, s.rules.refillThreshold, NextAttacker(s, defenderWon), NextDefender(s, defenderWon), n);
    assert s.players[..n] == s.players;
  }
}
