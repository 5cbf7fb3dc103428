/**
 * The snapshot transition engine of the blackjack game.  Every transition
 * takes a game state and returns a new one; a transition whose guard fails
 * returns the state it was given.  The event notifications the engine sends
 * on the way are not part of this model.
 */
module StateTransitions {
  import opened Wrappers
  import opened Cards
  import opened StateModels
  import BH = BlackjackHands

  /** The actions the engine recognises by name; anything else is `MoveOther`. */
  datatype Move = MoveHit | MoveStand | MoveDouble | MoveSplit | MoveSurrender | MoveOther

  /** The index of the first player with this id, if any. */
  function FindPlayer(players: seq<PlayerState>, id: nat): (r: Option<nat>)
    ensures r.Some? ==> r.value < |players| && players[r.value].id == id
    ensures r.Some? ==> forall k :: 0 <= k < r.value ==> players[k].id != id
    ensures r.None? <==> forall k :: 0 <= k < |players| ==> players[k].id != id
  {
    if players == [] then None
    else if players[0].id == id then Some(0)
    else match FindPlayer(players[1..], id)
      case None => None
      case Some(k) => Some(k + 1)
  }

  /** The player search as the engine runs it: scan from the front, stop at the first match. */
  method FindPlayerIndex(players: seq<PlayerState>, id: nat) returns (r: Option<nat>)
    ensures r == FindPlayer(players, id)
  {
    var i := 0;
    while i < |players|
      invariant 0 <= i <= |players|
      invariant forall k :: 0 <= k < i ==> players[k].id != id
    {
      if players[i].id == id {
        return Some(i);
      }
      i := i + 1;
    }
    return None;
  }

  /** Players with the same ids, position by position, are searched alike. */
  lemma SameIdsSameSearch(ps: seq<PlayerState>, qs: seq<PlayerState>, id: nat)
    requires |ps| == |qs| && forall k :: 0 <= k < |ps| ==> ps[k].id == qs[k].id
    ensures FindPlayer(ps, id) == FindPlayer(qs, id)
  {
  }

  /** A new player with no hands joins at the end of the table. */
  function AddPlayer(s: GameState, id: nat, name: string, balance: real): (r: GameState)
    ensures r.players == s.players + [PlayerState(id, name, balance, [], 0, false)]
    ensures r == s.(players := r.players)
  {
    s.(players := s.players + [PlayerState(id, name, balance, [], 0, false)])
  }

  /**
   * The current-player index after removing the player at `removed`, with
   * `remaining` players left, as the engine computes it: when the removed
   * player sat at or before the current one, the index is decreased, or set
   * to the last seat when it fell off the end, or to 0 when nobody is left.
   */
  function RemovedIndexAsWritten(current: nat, removed: nat, remaining: nat): int {
    if removed <= current then
      if remaining == 0 then 0
      else if current >= remaining then remaining - 1
      else current - 1
    else current
  }

  /** Removing the first of three players while the first is current leaves the index at -1, pointing at the last seat. */
  lemma RemovedIndexAsWrittenGoesNegative()
    ensures RemovedIndexAsWritten(0, 0, 2) == -1
  {
  }

  /**
   * The current-player index after a removal: a player removed before the
   * current one shifts the index down by one; when the current player is
   * removed the next player takes the seat, or the last player when the
   * current one sat at the end, or 0 when nobody is left.
   */
  function RemovedIndex(current: nat, removed: nat, remaining: nat): (r: nat)
    ensures remaining > 0 && current <= remaining && removed <= remaining ==> r < remaining
    ensures remaining == 0 && removed <= current ==> r == 0
    ensures removed < current <= remaining ==> r == current - 1
    ensures removed == current < remaining ==> r == current
    ensures current < removed ==> r == current
  {
    if removed <= current then
      if remaining == 0 then 0
      else if current >= remaining then remaining - 1
      else if removed < current then current - 1
      else current
    else current
  }

  /** The two index rules differ only where the engine's decreases an index for the current player's own seat. */
  lemma RemovedIndexCorrectsOnlyOwnSeat(current: nat, removed: nat, remaining: nat)
    ensures removed != current ==> RemovedIndex(current, removed, remaining) == RemovedIndexAsWritten(current, removed, remaining)
    ensures removed == current && remaining > 0 && current < remaining ==>
      RemovedIndexAsWritten(current, removed, remaining) == current - 1 && RemovedIndex(current, removed, remaining) == current
  {
  }

  /** The player with this id leaves; an unknown id changes nothing. */
  function RemovePlayer(s: GameState, id: nat): (r: GameState)
    ensures FindPlayer(s.players, id).None? ==> r == s
    ensures FindPlayer(s.players, id).Some? ==>
      var pi := FindPlayer(s.players, id).value;
      r.players == s.players[..pi] + s.players[pi + 1..] && r == s.(players := r.players, currentPlayerIndex := r.currentPlayerIndex)
    ensures FindPlayer(s.players, id).Some? ==>
      var pi, cur := FindPlayer(s.players, id).value, s.currentPlayerIndex;
      (pi < cur < |s.players| ==> r.currentPlayerIndex == cur - 1) &&
      (cur < pi ==> r.currentPlayerIndex == cur) &&
      (pi == cur < |r.players| ==> r.currentPlayerIndex == cur) &&
      (0 < |r.players| && cur < |s.players| ==> r.currentPlayerIndex < |r.players|) &&
      (|r.players| == 0 ==> r.currentPlayerIndex == 0)
  {
    match FindPlayer(s.players, id)
    case None => s
    case Some(pi) =>
      var rest := s.players[..pi] + s.players[pi + 1..];
      s.(players := rest, currentPlayerIndex := RemovedIndex(s.currentPlayerIndex, pi, |rest|))
  }

  /** A player who has just joined can leave again, and the table is as it was. */
  lemma RemoveUndoesAdd(s: GameState, id: nat, name: string, balance: real)
    requires forall k :: 0 <= k < |s.players| ==> s.players[k].id != id
    requires s.currentPlayerIndex < |s.players| || s.currentPlayerIndex == 0
    ensures RemovePlayer(AddPlayer(s, id, name, balance), id) == s
  {
    var a := AddPlayer(s, id, name, balance);
    assert forall k :: 0 <= k < |s.players| ==> a.players[k] == s.players[k];
    assert a.players[|s.players|].id == id;
    assert FindPlayer(a.players, id) == Some(|s.players|);
    assert a.players[..|s.players|] + a.players[|s.players| + 1..] == s.players;
  }

  /**
   * A bet is accepted only while bets are being placed, from a seated
   * player whose balance covers it; the player then holds one hand carrying
   * that bet and the balance drops by the amount.
   */
  function PlaceBet(s: GameState, id: nat, amount: real): (r: GameState)
    ensures s.stage != PlacingBets || FindPlayer(s.players, id).None? ==> r == s
    ensures s.stage == PlacingBets && FindPlayer(s.players, id).Some? ==>
      var pi := FindPlayer(s.players, id).value;
      var p := s.players[pi];
      (p.balance < amount ==> r == s)
      && (p.balance >= amount ==>
            r == s.(players := s.players[pi := p.(balance := p.balance - amount, hands := [NewHand(amount)])]))
  {
    if s.stage != PlacingBets then s
    else match FindPlayer(s.players, id)
      case None => s
      case Some(pi) =>
        var p := s.players[pi];
        if p.balance < amount then s
        else s.(players := s.players[pi := p.(balance := p.balance - amount, hands := [NewHand(amount)])])
  }

  /** The card appended to a hand. */
  function WithCard(h: HandState, c: Card): HandState {
    h.(cards := h.cards + [c])
  }

  /**
   * A card goes to the dealer, or to hand `handIndex` of the player with id
   * `playerId`; either way the shoe holds one card fewer.  A visible dealer
   * card raises the visible count.  An unknown player or a hand index past
   * the last hand changes nothing.
   */
  function DealCard(s: GameState, c: Card, toDealer: bool, playerId: Option<nat>, handIndex: nat, isVisible: bool): (r: GameState)
    ensures toDealer ==> (r.players == s.players && r.shoeCardsRemaining == s.shoeCardsRemaining - 1
      && r.dealer.hand.cards == s.dealer.hand.cards + [c]
      && r.dealer.visibleCardCount == s.dealer.visibleCardCount + (if isVisible then 1 else 0))
    ensures !toDealer && (playerId.None? || FindPlayer(s.players, playerId.value).None?) ==> r == s
    ensures !toDealer && playerId.Some? && FindPlayer(s.players, playerId.value).Some? ==>
      var pi := FindPlayer(s.players, playerId.value).value;
      (handIndex >= |s.players[pi].hands| ==> r == s)
      && (handIndex < |s.players[pi].hands| ==>
            r.shoeCardsRemaining == s.shoeCardsRemaining - 1 && r.dealer == s.dealer && |r.players| == |s.players|
            && (forall k :: 0 <= k < |s.players| && k != pi ==> r.players[k] == s.players[k])
            && r.players[pi] == s.players[pi].(hands := s.players[pi].hands[handIndex := WithCard(s.players[pi].hands[handIndex], c)])
            && r.players[pi].hands[handIndex].cards == s.players[pi].hands[handIndex].cards + [c])
  {
    if toDealer then
      var d := s.dealer;
      s.(dealer := d.(hand := WithCard(d.hand, c), visibleCardCount := d.visibleCardCount + if isVisible then 1 else 0),
         shoeCardsRemaining := s.shoeCardsRemaining - 1)
    else if playerId.None? then s
    else match FindPlayer(s.players, playerId.value)
      case None => s
      case Some(pi) =>
        var p := s.players[pi];
        if handIndex >= |p.hands| then s
        else
          s.(players := s.players[pi := p.(hands := p.hands[handIndex := WithCard(p.hands[handIndex], c)])],
             shoeCardsRemaining := s.shoeCardsRemaining - 1)
  }

  /**
   * The turn moves on: to the current player's next hand, else the player is
   * done and the next player is up, else the last player is done and the
   * dealer plays.
   */
  function AdvanceToNextHand(s: GameState): (r: GameState)
    requires s.currentPlayerIndex < |s.players|
    ensures |r.players| == |s.players| && r.dealer == s.dealer && r.shoeCardsRemaining == s.shoeCardsRemaining
    ensures forall k :: 0 <= k < |s.players| && k != s.currentPlayerIndex ==> r.players[k] == s.players[k]
    ensures var p := s.players[s.currentPlayerIndex];
      if p.currentHandIndex + 1 < |p.hands| then
        r == s.(players := s.players[s.currentPlayerIndex := p.(currentHandIndex := p.currentHandIndex + 1)])
      else if s.currentPlayerIndex + 1 < |s.players| then
        r == s.(players := s.players[s.currentPlayerIndex := p.(isDone := true)], currentPlayerIndex := s.currentPlayerIndex + 1)
      else
        r == s.(players := s.players[s.currentPlayerIndex := p.(isDone := true)], stage := DealerTurn)
  {
    var ci := s.currentPlayerIndex;
    var p := s.players[ci];
    if p.currentHandIndex < |p.hands| - 1 then
      s.(players := s.players[ci := p.(currentHandIndex := p.currentHandIndex + 1)])
    else if ci < |s.players| - 1 then
      s.(players := s.players[ci := p.(isDone := true)], currentPlayerIndex := ci + 1)
    else
      s.(players := s.players[ci := p.(isDone := true)], stage := DealerTurn)
  }

  /** The total staked on a list of hands. */
  function TotalBets(hands: seq<HandState>): real {
    if hands == [] then 0.0 else TotalBets(hands[..|hands| - 1]) + hands[|hands| - 1].bet
  }

  lemma {:induction false} TotalBetsAppend(a: seq<HandState>, b: seq<HandState>)
    ensures TotalBets(a + b) == TotalBets(a) + TotalBets(b)
    decreases |b|
  {
    if b == [] {
      assert a + b == a;
    } else {
      assert (a + b)[..|a + b| - 1] == a + b[..|b| - 1];
      TotalBetsAppend(a, b[..|b| - 1]);
    }
  }

  /** Replacing hand `i` by the hands `mid` changes the total by their bets less hand `i`'s. */
  lemma TotalBetsSplice(hands: seq<HandState>, i: nat, mid: seq<HandState>)
    requires i < |hands|
    ensures TotalBets(hands[..i] + mid + hands[i + 1..]) == TotalBets(hands) - hands[i].bet + TotalBets(mid)
  {
    assert hands == hands[..i] + [hands[i]] + hands[i + 1..];
    TotalBetsAppend(hands[..i] + mid, hands[i + 1..]);
    TotalBetsAppend(hands[..i], mid);
    TotalBetsAppend(hands[..i] + [hands[i]], hands[i + 1..]);
    TotalBetsAppend(hands[..i], [hands[i]]);
    assert TotalBets([hands[i]]) == hands[i].bet by {
      assert [hands[i]][..0] == [];
    }
  }

  /** A player's balance plus everything they have staked. */
  function Holdings(p: PlayerState): real {
    p.balance + TotalBets(p.hands)
  }

  /** The hand being played with its bet doubled and marked as doubled. */
  function Doubled(h: HandState): (d: HandState)
    ensures d.bet == 2.0 * h.bet && d.isDoubled && d.cards == h.cards
  {
    h.(bet := h.bet * 2.0, isDoubled := true)
  }

  /** The two hands a pair splits into, each with one card and the original bet. */
  function SplitHands(h: HandState): (r: seq<HandState>)
    requires |h.cards| == 2
    ensures |r| == 2 && r[0].cards == [h.cards[0]] && r[1].cards == [h.cards[1]]
    ensures r[0].bet == h.bet && r[1].bet == h.bet && r[0].isSplit && r[1].isSplit
  {
    [NewHand(h.bet).(cards := [h.cards[0]], isSplit := true), NewHand(h.bet).(cards := [h.cards[1]], isSplit := true)]
  }

  /** The hand given up: resolved as a surrender, paying back half the bet. */
  function Surrendered(h: HandState): (d: HandState)
    ensures d.isSurrendered && d.isResolved && d.result == Some(HandResult.Surrendered) && d.payout == h.bet / 2.0
  {
    h.(isSurrendered := true, isResolved := true, result := Some(HandResult.Surrendered), payout := h.bet / 2.0)
  }

  /** Whether the player with this id is the current player and has a hand to play. */
  predicate MayAct(s: GameState, id: nat) {
    s.stage == PlayerTurn
    && FindPlayer(s.players, id) == Some(s.currentPlayerIndex)
    && s.players[s.currentPlayerIndex].hands != []
    && s.players[s.currentPlayerIndex].currentHandIndex < |s.players[s.currentPlayerIndex].hands|
  }

  /** A hit deals the card to the hand being played; the turn moves on only when the hand busts. */
  function HitMove(s: GameState, id: nat, c: Card): (r: GameState)
    requires MayAct(s, id)
    ensures var p := s.players[s.currentPlayerIndex];
      var h := p.hands[p.currentHandIndex];
      var dealt := DealCard(s, c, false, Some(id), p.currentHandIndex, true);
      dealt.players[s.currentPlayerIndex].hands[p.currentHandIndex] == WithCard(h, c)
      && r == if IsBust(WithCard(h, c)) then AdvanceToNextHand(dealt) else dealt
  {
    var s1 := DealCard(s, c, false, Some(id), s.players[s.currentPlayerIndex].currentHandIndex, true);
    if IsBust(s1.players[s.currentPlayerIndex].hands[s.players[s.currentPlayerIndex].currentHandIndex]) then AdvanceToNextHand(s1) else s1
  }

  /**
   * A double on two cards that the balance covers: the bet is doubled and
   * taken from the balance, the card is dealt, and the turn moves on;
   * otherwise nothing changes.
   */
  function DoubleMove(s: GameState, id: nat, c: Card): (r: GameState)
    requires MayAct(s, id)
    ensures var p := s.players[s.currentPlayerIndex];
      var h := p.hands[p.currentHandIndex];
      (h.bet <= p.balance && |h.cards| == 2 ==>
        |r.players| == |s.players| && r.players[s.currentPlayerIndex].balance == p.balance - h.bet
        && |r.players[s.currentPlayerIndex].hands| == |p.hands|
        && r.players[s.currentPlayerIndex].hands[p.currentHandIndex] == WithCard(Doubled(h), c)
        && r.players[s.currentPlayerIndex].hands == p.hands[p.currentHandIndex := WithCard(Doubled(h), c)]
        && forall k :: 0 <= k < |s.players| && k != s.currentPlayerIndex ==> r.players[k] == s.players[k])
      && (!(h.bet <= p.balance && |h.cards| == 2) ==> r == s)
  {
    var pi := s.currentPlayerIndex;
    var p := s.players[pi];
    var hi := p.currentHandIndex;
    var h := p.hands[hi];
    if h.bet <= p.balance && |h.cards| == 2 then
      var s2 := DealCard(Staked(s), c, false, Some(id), hi, true);
      DoubledDeal(s, id, c);
      AdvanceKeepsHoldings(s2);
      AdvanceToNextHand(s2)
    else s
  }

  /** The stake and the card of a double: only the acting player's balance and hand being played change. */
  lemma DoubledDeal(s: GameState, id: nat, c: Card)
    requires MayAct(s, id)
    ensures var p := s.players[s.currentPlayerIndex]; var h := p.hands[p.currentHandIndex];
      var s2 := DealCard(Staked(s), c, false, Some(id), p.currentHandIndex, true);
      && s2.currentPlayerIndex == s.currentPlayerIndex && |s2.players| == |s.players|
      && s2.players[s.currentPlayerIndex].balance == p.balance - h.bet
      && s2.players[s.currentPlayerIndex].hands == p.hands[p.currentHandIndex := WithCard(Doubled(h), c)]
      && forall k :: 0 <= k < |s.players| && k != s.currentPlayerIndex ==> s2.players[k] == s.players[k]
  {
    SameIdsSameSearch(s.players, Staked(s).players, id);
  }

  /** The acting player's hand being played with its bet doubled, the extra stake taken from the balance. */
  function Staked(s: GameState): (r: GameState)
    requires s.currentPlayerIndex < |s.players|
    requires s.players[s.currentPlayerIndex].currentHandIndex < |s.players[s.currentPlayerIndex].hands|
  {
    var p := s.players[s.currentPlayerIndex];
    var h := p.hands[p.currentHandIndex];
    s.(players := s.players[s.currentPlayerIndex := p.(hands := p.hands[p.currentHandIndex := Doubled(h)], balance := p.balance - h.bet)])
  }

  /** Moving the turn on changes no balance and no hand. */
  lemma AdvanceKeepsHoldings(s: GameState)
    requires s.currentPlayerIndex < |s.players|
    ensures var r := AdvanceToNextHand(s);
      && r.players[s.currentPlayerIndex].balance == s.players[s.currentPlayerIndex].balance
      && r.players[s.currentPlayerIndex].hands == s.players[s.currentPlayerIndex].hands
  {
  }

  /**
   * A split of a pair that the balance covers: the hand becomes two hands of
   * one card each, both carrying the bet, and the second bet is taken from
   * the balance; the turn stays on the first of them.  Otherwise nothing changes.
   */
  function SplitMove(s: GameState): (r: GameState)
    requires s.currentPlayerIndex < |s.players|
    requires s.players[s.currentPlayerIndex].currentHandIndex < |s.players[s.currentPlayerIndex].hands|
    ensures var p := s.players[s.currentPlayerIndex];
      var hi := p.currentHandIndex;
      var h := p.hands[hi];
      if |h.cards| == 2 && h.bet <= p.balance && h.cards[0].rank == h.cards[1].rank then
        |r.players| == |s.players| && |r.players[s.currentPlayerIndex].hands| == |p.hands| + 1
        && r.players[s.currentPlayerIndex].hands[hi].cards == [h.cards[0]]
        && r.players[s.currentPlayerIndex].hands[hi + 1].cards == [h.cards[1]]
        && (forall k :: 0 <= k < hi ==> r.players[s.currentPlayerIndex].hands[k] == p.hands[k])
        && (forall k :: hi < k < |p.hands| ==> r.players[s.currentPlayerIndex].hands[k + 1] == p.hands[k])
        && r.players[s.currentPlayerIndex].balance == p.balance - h.bet
        && r.currentPlayerIndex == s.currentPlayerIndex && r.stage == s.stage
      else r == s
  {
    var pi := s.currentPlayerIndex;
    var p := s.players[pi];
    var hi := p.currentHandIndex;
    var h := p.hands[hi];
    if |h.cards| == 2 && h.bet <= p.balance && h.cards[0].rank == h.cards[1].rank then
      s.(players := s.players[pi := p.(hands := p.hands[..hi] + SplitHands(h) + p.hands[hi + 1..], balance := p.balance - h.bet)])
    else s
  }

  /** Surrendering two cards resolves the hand, pays back half its bet and moves on; otherwise nothing changes. */
  function SurrenderMove(s: GameState): (r: GameState)
    requires s.currentPlayerIndex < |s.players|
    requires s.players[s.currentPlayerIndex].currentHandIndex < |s.players[s.currentPlayerIndex].hands|
    ensures var p := s.players[s.currentPlayerIndex];
      var h := p.hands[p.currentHandIndex];
      |h.cards| == 2 ==>
        r == AdvanceToNextHand(s.(players := s.players[s.currentPlayerIndex :=
               p.(hands := p.hands[p.currentHandIndex := Surrendered(h)], balance := p.balance + h.bet / 2.0)]))
    ensures |s.players[s.currentPlayerIndex].hands[s.players[s.currentPlayerIndex].currentHandIndex].cards| != 2 ==> r == s
  {
    var pi := s.currentPlayerIndex;
    var p := s.players[pi];
    var hi := p.currentHandIndex;
    var h := p.hands[hi];
    if |h.cards| == 2 then
      AdvanceToNextHand(s.(players := s.players[pi := p.(hands := p.hands[hi := Surrendered(h)], balance := p.balance + h.bet / 2.0)]))
    else s
  }

  /**
   * A player action, taken only by the current player on a hand that
   * exists, during the players' turn.  Hit and double need the card to deal;
   * an unrecognised action changes nothing.
   */
  function PlayerAction(s: GameState, id: nat, m: Move, card: Option<Card>): (r: GameState)
    ensures !MayAct(s, id) ==> r == s
    ensures MayAct(s, id) ==> r == match m
      case MoveHit => if card.Some? then HitMove(s, id, card.value) else s
      case MoveStand => AdvanceToNextHand(s)
      case MoveDouble => if card.Some? then DoubleMove(s, id, card.value) else s
      case MoveSplit => SplitMove(s)
      case MoveSurrender => SurrenderMove(s)
      case MoveOther => s
  {
    if !MayAct(s, id) then s
    else match m
      case MoveHit => if card.Some? then HitMove(s, id, card.value) else s
      case MoveStand => AdvanceToNextHand(s)
      case MoveDouble => if card.Some? then DoubleMove(s, id, card.value) else s
      case MoveSplit => SplitMove(s)
      case MoveSurrender => SurrenderMove(s)
      case MoveOther => s
  }

  /** Standing always passes the turn on, whatever the hand. */
  lemma StandAdvances(s: GameState, id: nat, card: Option<Card>)
    requires MayAct(s, id)
    ensures PlayerAction(s, id, MoveStand, card) == AdvanceToNextHand(s)
  {
  }

  /** A one-hand list's total is that hand's bet. */
  lemma TotalBetsSingle(h: HandState)
    ensures TotalBets([h]) == h.bet
  {
    assert [h][..0] == [];
  }

  /** Replacing one hand changes the total stake by the difference of the two bets. */
  lemma TotalBetsUpdate(hands: seq<HandState>, i: nat, h: HandState)
    requires i < |hands|
    ensures TotalBets(hands[i := h]) == TotalBets(hands) - hands[i].bet + h.bet
  {
    assert hands[i := h] == hands[..i] + [h] + hands[i + 1..];
    TotalBetsSplice(hands, i, [h]);
    TotalBetsSingle(h);
  }

  /**
   * Doubling moves the extra stake from the balance onto the table: the
   * acting player's balance plus total stake is unchanged and every other
   * player is untouched.
   */
  lemma DoubleKeepsHoldings(s: GameState, id: nat, c: Card)
    requires MayAct(s, id)
    ensures |DoubleMove(s, id, c).players| == |s.players|
    ensures Holdings(DoubleMove(s, id, c).players[s.currentPlayerIndex]) == Holdings(s.players[s.currentPlayerIndex])
    ensures forall k :: 0 <= k < |s.players| && k != s.currentPlayerIndex ==> DoubleMove(s, id, c).players[k] == s.players[k]
  {
    var pi := s.currentPlayerIndex;
    var p := s.players[pi];
    var hi := p.currentHandIndex;
    var h := p.hands[hi];
    if h.bet <= p.balance && |h.cards| == 2 {
      TotalBetsUpdate(p.hands, hi, WithCard(Doubled(h), c));
    }
  }

  /**
   * Splitting stakes the second hand from the balance: the acting player's
   * balance plus total stake is unchanged and every other player is untouched.
   */
  lemma SplitKeepsHoldings(s: GameState)
    requires s.currentPlayerIndex < |s.players|
    requires s.players[s.currentPlayerIndex].currentHandIndex < |s.players[s.currentPlayerIndex].hands|
    ensures |SplitMove(s).players| == |s.players|
    ensures Holdings(SplitMove(s).players[s.currentPlayerIndex]) == Holdings(s.players[s.currentPlayerIndex])
    ensures forall k :: 0 <= k < |s.players| && k != s.currentPlayerIndex ==> SplitMove(s).players[k] == s.players[k]
  {
    var p := s.players[s.currentPlayerIndex];
    var hi := p.currentHandIndex;
    var h := p.hands[hi];
    if |h.cards| == 2 && h.bet <= p.balance && h.cards[0].rank == h.cards[1].rank {
      TotalBetsSplice(p.hands, hi, SplitHands(h));
      var sh := SplitHands(h);
      assert TotalBets(sh) == 2.0 * h.bet by {
        assert sh[..1] == [sh[0]];
        TotalBetsSingle(sh[0]);
      }
    }
  }

  /** Surrendering credits half the bet to the balance and resolves the hand being played. */
  lemma SurrenderPaysHalf(s: GameState)
    requires s.currentPlayerIndex < |s.players|
    requires s.players[s.currentPlayerIndex].currentHandIndex < |s.players[s.currentPlayerIndex].hands|
    requires |s.players[s.currentPlayerIndex].hands[s.players[s.currentPlayerIndex].currentHandIndex].cards| == 2
    ensures var p := s.players[s.currentPlayerIndex];
      var h := p.hands[p.currentHandIndex];
      var r := SurrenderMove(s);
      |r.players| == |s.players|
      && r.players[s.currentPlayerIndex].balance == p.balance + h.bet / 2.0
      && r.players[s.currentPlayerIndex].hands[p.currentHandIndex] == Surrendered(h)
  {
  }

  /** A hit adds the card to the hand being played, uses one card from the shoe, and moves on exactly when the hand busts. */
  lemma HitTakesCard(s: GameState, id: nat, c: Card)
    requires MayAct(s, id)
    ensures var p := s.players[s.currentPlayerIndex];
      var h := p.hands[p.currentHandIndex];
      var r := HitMove(s, id, c);
      |r.players| == |s.players|
      && r.players[s.currentPlayerIndex].hands[p.currentHandIndex].cards == h.cards + [c]
      && r.shoeCardsRemaining == s.shoeCardsRemaining - 1
      && (!IsBust(WithCard(h, c)) ==> r.currentPlayerIndex == s.currentPlayerIndex && r.players[s.currentPlayerIndex].currentHandIndex == p.currentHandIndex)
  {
  }

  /** The dealer's action: a hit with a card deals it face up; standing finishes the dealer and ends the round. */
  function DealerAction(s: GameState, m: Move, card: Option<Card>): (r: GameState)
    ensures s.stage != DealerTurn ==> r == s
    ensures s.stage == DealerTurn && m == MoveHit && card.Some? ==>
      r.dealer.hand.cards == s.dealer.hand.cards + [card.value] && r.players == s.players
      && r.dealer.visibleCardCount == s.dealer.visibleCardCount + 1 && r.shoeCardsRemaining == s.shoeCardsRemaining - 1
    ensures s.stage == DealerTurn && m == MoveStand ==> r == s.(dealer := s.dealer.(isDone := true), stage := EndRound)
    ensures s.stage == DealerTurn && m != MoveStand && (m != MoveHit || card.None?) ==> r == s
  {
    if s.stage != DealerTurn then s
    else match m
      case MoveHit => if card.Some? then DealCard(s, card.value, true, None, 0, true) else s
      case MoveStand => s.(dealer := s.dealer.(isDone := true), stage := EndRound)
      case _ => s
  }

  /** Moves the game to another stage, changing nothing else. */
  function ChangeStage(s: GameState, stage: GameStage): (r: GameState)
    ensures r.stage == stage && r.(stage := s.stage) == s
  {
    s.(stage := stage)
  }

  /**
   * How an unresolved, unsurrendered hand settles against the dealer, and
   * what it pays back: a bust loses; a dealer bust pays double, or two and a
   * half times for a blackjack; a blackjack beats a dealer without one at
   * two and a half times; a dealer blackjack beats a hand without one; two
   * blackjacks push; otherwise the higher value wins double and equal values push.
   */
  function Settle(h: HandState, dealer: HandState): (r: (HandResult, real))
    ensures IsBust(h) ==> r == (Lose, 0.0)
    ensures !IsBust(h) && IsBust(dealer) ==> r == (Win, if IsBlackjack(h) then h.bet * 2.5 else h.bet * 2.0)
    ensures !IsBust(h) && !IsBust(dealer) && IsBlackjack(h) ==> r == (if IsBlackjack(dealer) then (Push, h.bet) else (Win, h.bet * 2.5))
    ensures !IsBust(h) && !IsBust(dealer) && !IsBlackjack(h) && IsBlackjack(dealer) ==> r == (Lose, 0.0)
    ensures !IsBust(h) && !IsBust(dealer) && !IsBlackjack(h) && !IsBlackjack(dealer) ==>
      r == (if Value(h) > Value(dealer) then (Win, h.bet * 2.0) else if Value(h) < Value(dealer) then (Lose, 0.0) else (Push, h.bet))
  {
    if IsBust(h) then (Lose, 0.0)
    else if IsBust(dealer) then (Win, if IsBlackjack(h) then h.bet * 2.5 else h.bet * 2.0)
    else if IsBlackjack(h) && !IsBlackjack(dealer) then (Win, h.bet * 2.5)
    else if IsBlackjack(dealer) && !IsBlackjack(h) then (Lose, 0.0)
    else if IsBlackjack(h) && IsBlackjack(dealer) then (Push, h.bet)
    else if Value(h) > Value(dealer) then (Win, h.bet * 2.0)
    else if Value(h) < Value(dealer) then (Lose, 0.0)
    else (Push, h.bet)
  }

  /** A hand after resolution: a resolved or surrendered hand stays as it is; any other is resolved with its result and payout. */
  function ResolveHand(h: HandState, dealer: HandState): (r: HandState)
    ensures h.isResolved || h.isSurrendered ==> r == h
    ensures !h.isResolved && !h.isSurrendered ==>
      r == h.(isResolved := true, result := Some(Settle(h, dealer).0), payout := Settle(h, dealer).1)
    ensures r.isResolved || r.isSurrendered
    ensures r.cards == h.cards && r.bet == h.bet
  {
    if h.isResolved || h.isSurrendered then h
    else
      var (res, pay) := Settle(h, dealer);
      h.(isResolved := true, result := Some(res), payout := pay)
  }

  /** What resolving a hand adds to the balance: its payout when it is resolved now, nothing otherwise. */
  function NewPayout(h: HandState, dealer: HandState): real {
    if h.isResolved || h.isSurrendered then 0.0 else Settle(h, dealer).1
  }

  /** The payouts credited for a list of hands. */
  function PayoutSum(hands: seq<HandState>, dealer: HandState): real {
    if hands == [] then 0.0 else PayoutSum(hands[..|hands| - 1], dealer) + NewPayout(hands[|hands| - 1], dealer)
  }

  /** A player after the round is resolved: every hand resolved, payouts credited, turn over. */
  function ResolvePlayer(p: PlayerState, dealer: HandState): (q: PlayerState)
    ensures |q.hands| == |p.hands| && q.isDone && q.balance == p.balance + PayoutSum(p.hands, dealer)
    ensures forall j :: 0 <= j < |p.hands| ==> q.hands[j] == ResolveHand(p.hands[j], dealer)
    ensures q == p.(hands := q.hands, balance := q.balance, isDone := true)
  {
    p.(hands := ResolvedHands(p.hands, dealer), balance := p.balance + PayoutSum(p.hands, dealer), isDone := true)
  }

  /** Every hand of a list resolved against the dealer, in order. */
  function ResolvedHands(hands: seq<HandState>, dealer: HandState): (r: seq<HandState>)
    ensures |r| == |hands| && forall j :: 0 <= j < |hands| ==> r[j] == ResolveHand(hands[j], dealer)
  {
    if hands == [] then [] else ResolvedHands(hands[..|hands| - 1], dealer) + [ResolveHand(hands[|hands| - 1], dealer)]
  }

  /** One more hand resolved: the resolved list and the credited sum each extend by that hand. */
  lemma ResolveStep(hands: seq<HandState>, j: nat, dealer: HandState)
    requires j < |hands|
    ensures ResolvedHands(hands[..j + 1], dealer) == ResolvedHands(hands[..j], dealer) + [ResolveHand(hands[j], dealer)]
    ensures PayoutSum(hands[..j + 1], dealer) == PayoutSum(hands[..j], dealer) + NewPayout(hands[j], dealer)
  {
    assert hands[..j + 1][..j] == hands[..j];
  }

  /** Resolution happens only at the end of the round, and then resolves every player. */
  function ResolveHands(s: GameState): (r: GameState)
    ensures s.stage != EndRound ==> r == s
    ensures s.stage == EndRound ==> (|r.players| == |s.players|
      && (forall i :: 0 <= i < |s.players| ==> r.players[i] == ResolvePlayer(s.players[i], s.dealer.hand))
      && r == s.(players := r.players))
  {
    if s.stage != EndRound then s
    else s.(players := seq(|s.players|, i requires 0 <= i < |s.players| => ResolvePlayer(s.players[i], s.dealer.hand)))
  }

  /** Resolution as the engine runs it: player by player, hand by hand, crediting each payout as it goes. */
  method ResolveHandsLoop(s: GameState) returns (r: GameState)
    ensures r == ResolveHands(s)
  {
    if s.stage != EndRound {
      return s;
    }
    var dealer := s.dealer.hand;
    var players: seq<PlayerState> := [];
    var i := 0;
    while i < |s.players|
      invariant 0 <= i <= |s.players| && |players| == i
      invariant forall k :: 0 <= k < i ==> players[k] == ResolvePlayer(s.players[k], dealer)
    {
      var q := ResolvePlayerLoop(s.players[i], dealer);
      players := players + [q];
      i := i + 1;
    }
    r := s.(players := players);
  }

  /** The inner loop of resolution: one player's hands in order, each payout credited as it is settled. */
  method ResolvePlayerLoop(p: PlayerState, dealer: HandState) returns (q: PlayerState)
    ensures q == ResolvePlayer(p, dealer)
  {
    var hands: seq<HandState> := [];
    var balance := p.balance;
    var j := 0;
    while j < |p.hands|
      invariant 0 <= j <= |p.hands| && |hands| == j
      invariant hands == ResolvedHands(p.hands[..j], dealer)
      invariant balance == p.balance + PayoutSum(p.hands[..j], dealer)
    {
      var h := p.hands[j];
      ResolveStep(p.hands, j, dealer);
      if h.isResolved || h.isSurrendered {
        hands := hands + [h];
      } else {
        var settled := Settle(h, dealer);
        var res, pay := settled.0, settled.1;
        balance := balance + pay;
        hands := hands + [h.(isResolved := true, result := Some(res), payout := pay)];
      }
      j := j + 1;
    }
    assert p.hands[..j] == p.hands;
    q := p.(hands := hands, balance := balance, isDone := true);
  }

  /** A hand already resolved keeps its result and payout, and adds nothing to the balance. */
  lemma ResolvedHandsUntouched(s: GameState, i: nat, j: nat)
    requires s.stage == EndRound && i < |s.players| && j < |s.players[i].hands| && s.players[i].hands[j].isResolved
    ensures ResolveHands(s).players[i].hands[j] == s.players[i].hands[j]
    ensures NewPayout(s.players[i].hands[j], s.dealer.hand) == 0.0
  {
  }

  /** Every payout is between nothing and two and a half times the stake when the stake is not negative. */
  lemma {:induction false} PayoutsBounded(hands: seq<HandState>, dealer: HandState)
    requires forall j :: 0 <= j < |hands| ==> hands[j].bet >= 0.0
    ensures 0.0 <= PayoutSum(hands, dealer) <= 2.5 * TotalBets(hands)
  {
    if hands != [] {
      PayoutsBounded(hands[..|hands| - 1], dealer);
    }
  }

  /** A fresh round: round number up, hands cleared, the dealer reset, the first player up, bets being taken. */
  function PrepareNewRound(s: GameState): (r: GameState)
    ensures r.roundNumber == s.roundNumber + 1 && r.stage == PlacingBets && r.currentPlayerIndex == 0
    ensures r.dealer == NewDealer && r.shoeCardsRemaining == s.shoeCardsRemaining
    ensures |r.players| == |s.players|
    ensures forall i :: 0 <= i < |s.players| ==>
      r.players[i] == s.players[i].(hands := [], currentHandIndex := 0, isDone := false)
  {
    GameState(seq(|s.players|, i requires 0 <= i < |s.players| => s.players[i].(hands := [], currentHandIndex := 0, isDone := false)),
              NewDealer, 0, PlacingBets, s.shoeCardsRemaining, s.roundNumber + 1)
  }

  /** Preparing a round as the engine does it, one player at a time. */
  method PrepareNewRoundLoop(s: GameState) returns (r: GameState)
    ensures r == PrepareNewRound(s)
  {
    var players: seq<PlayerState> := [];
    var i := 0;
    while i < |s.players|
      invariant 0 <= i <= |s.players| && |players| == i
      invariant forall k :: 0 <= k < i ==> players[k] == s.players[k].(hands := [], currentHandIndex := 0, isDone := false)
    {
      players := players + [s.players[i].(hands := [], currentHandIndex := 0, isDone := false)];
      i := i + 1;
    }
    r := s.(players := players, dealer := NewDealer, currentPlayerIndex := 0, stage := PlacingBets, roundNumber := s.roundNumber + 1);
  }

  /** After a new round is prepared no player can act until bets are placed and the turn comes round. */
  lemma NewRoundTakesBetsFirst(s: GameState, id: nat, m: Move, c: Option<Card>)
    ensures PlayerAction(PrepareNewRound(s), id, m, c) == PrepareNewRound(s)
    ensures ResolveHands(PrepareNewRound(s)) == PrepareNewRound(s)
  {
  }
}
