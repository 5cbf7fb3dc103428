/**
 * The immutable snapshot model of a blackjack game: hands, players, the
 * dealer and the game, with the derived views the transition engine reads.
 * Cards are rank-based playing cards.
 */
module StateModels {
  import opened Wrappers
  import opened Cards
  import BH = BlackjackHands

  datatype GameStage =
    | WaitingForPlayers
    | PlacingBets
    | Dealing
    | InsuranceOffered
    | PlayerTurn
    | DealerTurn
    | EndRound

  /** The recorded result of a resolved hand. */
  datatype HandResult = Win | Lose | Push | Surrendered

  datatype HandState = HandState(
    cards: seq<Card>,
    bet: real,
    isDoubled: bool,
    isSplit: bool,
    insuranceBet: real,
    isSurrendered: bool,
    isResolved: bool,
    result: Option<HandResult>,
    payout: real)

  /** A hand holding only a bet; every other field has its default. */
  function NewHand(bet: real): (h: HandState)
    ensures h.cards == [] && h.bet == bet && !h.isResolved && !h.isSurrendered && !h.isSplit
  {
    HandState([], bet, false, false, 0.0, false, false, None, 0.0)
  }

  datatype PlayerState = PlayerState(
    id: nat,
    name: string,
    balance: real,
    hands: seq<HandState>,
    currentHandIndex: nat,
    isDone: bool)

  datatype DealerState = DealerState(hand: HandState, isDone: bool, visibleCardCount: nat)

  /** A dealer with an empty hand, not done, showing nothing. */
  const NewDealer := DealerState(NewHand(0.0), false, 0)

  datatype GameState = GameState(
    players: seq<PlayerState>,
    dealer: DealerState,
    currentPlayerIndex: nat,
    stage: GameStage,
    shoeCardsRemaining: int,
    roundNumber: nat)

  /**
   * The value of a hand computed as the snapshot model does: every card adds
   * its rank value with aces counted as 1, then for each ace 10 more is
   * added while that keeps the total within 21.  The cards are library
   * `Card` values, so this is the rank-enumeration branch of the source's loop.
   */
  method ComputeValue(cards: seq<Card>) returns (total: nat)
    ensures total == BH.HandValue(cards)
    ensures total <= 21 || total == BH.HardTotal(cards)
  {
    total := 0;
    var aces := 0;
    var i := 0;
    while i < |cards|
      invariant 0 <= i <= |cards|
      invariant aces == BH.NumAces(cards[..i])
      invariant total == BH.HardTotal(cards[..i])
    {
      assert cards[..i + 1][..i] == cards[..i];
      if cards[i].rank == Ace {
        aces := aces + 1;
        total := total + 1;
      } else {
        total := total + RankValue(cards[i].rank);
      }
      i := i + 1;
    }
    assert cards[..i] == cards;
    ghost var hard := total;
    assert hard >= aces;
    var k := 0;
    while k < aces
      invariant 0 <= k <= aces
      invariant total == if k > 0 && hard + 10 <= 21 then hard + 10 else hard
    {
      if total + 10 <= 21 {
        total := total + 10;
      }
      k := k + 1;
    }
  }

  /** The hand's value: aces count 1, and one counts 11 when the total stays within 21. */
  function Value(h: HandState): nat {
    BH.HandValue(h.cards)
  }

  predicate IsBust(h: HandState) {
    Value(h) > 21
  }

  /** Two cards worth 21 in a hand that did not come from a split. */
  predicate IsBlackjack(h: HandState) {
    |h.cards| == 2 && Value(h) == 21 && !h.isSplit
  }

  /** Soft as the snapshot model tests it: an ace is present and the hand is not bust. */
  predicate IsSoft(h: HandState) {
    (exists i :: 0 <= i < |h.cards| && h.cards[i].rank == Ace) && Value(h) <= 21
  }

  /**
   * A snapshot blackjack is exactly a blackjack for the hand object, and the
   * snapshot's soft test accepts every hand whose ace counts 11, and more:
   * an ace hand counted hard is soft here too when it does not bust.
   */
  lemma SnapshotTestsAgree(h: HandState)
    ensures IsBlackjack(h) <==> BH.IsBlackjack(BH.Hand(h.cards, h.isSplit))
    ensures IsBust(h) <==> BH.HardTotal(h.cards) > 21
    ensures BH.IsSoft(h.cards) ==> IsSoft(h)
  {
    BH.HandValueIsBestTotal(h.cards, 0);
    if BH.IsSoft(h.cards) {
      BH.SoftMeansAceCountsEleven(h.cards);
      var i := AceIndex(h.cards);
    }
  }

  /** Where an ace sits in a hand that holds one. */
  lemma {:induction false} AceIndex(cards: seq<Card>) returns (i: nat)
    requires BH.NumAces(cards) > 0
    ensures i < |cards| && cards[i].rank == Ace
  {
    var n := |cards| - 1;
    if cards[n].rank == Ace {
      i := n;
    } else {
      i := AceIndex(cards[..n]);
    }
  }

  /** The hand being played, or None when there is none at the current index. */
  function CurrentHand(p: PlayerState): (r: Option<HandState>)
    ensures r == None <==> p.hands == [] || p.currentHandIndex >= |p.hands|
    ensures r != None ==> r.value == p.hands[p.currentHandIndex]
  {
    if p.hands == [] || p.currentHandIndex >= |p.hands| then None else Some(p.hands[p.currentHandIndex])
  }

  /** The dealer's cards that the players can see: the first `visibleCardCount` of them, or all when fewer. */
  function VisibleCards(d: DealerState): (r: seq<Card>)
    ensures |r| == if d.visibleCardCount <= |d.hand.cards| then d.visibleCardCount else |d.hand.cards|
    ensures r <= d.hand.cards
  {
    if d.hand.cards == [] then []
    else if d.visibleCardCount <= |d.hand.cards| then d.hand.cards[..d.visibleCardCount]
    else d.hand.cards
  }

  /** The value of the dealer's visible cards alone. */
  function VisibleValue(d: DealerState): (v: nat)
    ensures d.visibleCardCount >= |d.hand.cards| ==> v == Value(d.hand)
  {
    assert d.hand.cards[..|d.hand.cards|] == d.hand.cards;
    BH.HandValue(VisibleCards(d))
  }

  /** The player whose turn it is, or None when the index is past the end. */
  function CurrentPlayer(s: GameState): (r: Option<PlayerState>)
    ensures r == None <==> s.currentPlayerIndex >= |s.players|
    ensures r != None ==> r.value == s.players[s.currentPlayerIndex]
  {
    if s.players == [] || s.currentPlayerIndex >= |s.players| then None else Some(s.players[s.currentPlayerIndex])
  }

  /** The current player's current hand, when both exist. */
  function CurrentPlayerHand(s: GameState): (r: Option<HandState>)
    ensures r != None <==> CurrentPlayer(s) != None && CurrentHand(CurrentPlayer(s).value) != None
    ensures r != None ==> r.value == s.players[s.currentPlayerIndex].hands[s.players[s.currentPlayerIndex].currentHandIndex]
  {
    match CurrentPlayer(s)
    case None => None
    case Some(p) => CurrentHand(p)
  }
}
