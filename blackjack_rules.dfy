/** The configurable blackjack table rules and the legality tests they drive. */
module BlackjackRules {
  import opened Wrappers
  import opened Cards
  import opened BlackjackHands

  datatype Rules = Rules(
    blackjackPayout: real,
    dealerHitSoft17: bool,
    allowSplit: bool,
    allowDoubleDown: bool,
    allowInsurance: bool,
    allowSurrender: bool,
    numDecks: int,
    minBet: real,
    maxBet: real,
    allowLateSurrender: bool,
    allowDoubleAfterSplit: bool,
    allowResplitting: bool,
    dealerPeek: bool,
    useCsm: bool,
    allowEarlySurrender: bool,
    timeLimit: int)

  /** The rules a table gets when none are given. */
  const DefaultRules := Rules(
    blackjackPayout := 1.5, dealerHitSoft17 := true, allowSplit := true, allowDoubleDown := true,
    allowInsurance := true, allowSurrender := true, numDecks := 1, minBet := 1.0, maxBet := 100.0,
    allowLateSurrender := false, allowDoubleAfterSplit := false, allowResplitting := false,
    dealerPeek := false, useCsm := false, allowEarlySurrender := false, timeLimit := 0)

  /** The dealer draws below 17, and on a soft 17 when the table says so. */
  predicate ShouldDealerHit(rules: Rules, h: Hand) {
    var score := HandValue(h.cards);
    score < 17 || (score == 17 && IsSoft(h.cards) && rules.dealerHitSoft17)
  }

  /** The dealer's drawing rule: draws on 16 or less, never on 18 or more, and on 17 only when it is soft and the table hits soft 17. */
  lemma DealerDrawingRule(rules: Rules, h: Hand)
    ensures HandValue(h.cards) <= 16 ==> ShouldDealerHit(rules, h)
    ensures HandValue(h.cards) >= 18 ==> !ShouldDealerHit(rules, h)
    ensures HandValue(h.cards) == 17 ==>
      (ShouldDealerHit(rules, h) <==> rules.dealerHitSoft17 && NumAces(h.cards) > 0 && HandValue(h.cards) == HardTotal(h.cards) + 10)
  {
    SoftMeansAceCountsEleven(h.cards);
  }

  /** A blackjack for the rule object: two cards worth 21, whether or not the hand came from a split. */
  predicate RulesIsBlackjack(h: Hand) {
    HandValue(h.cards) == 21 && |h.cards| == 2
  }

  /** The rule object's test agrees with the hand's own test except on split hands, where only the hand refuses it. */
  lemma RulesBlackjackIgnoresSplit(h: Hand)
    ensures !h.isSplit ==> (RulesIsBlackjack(h) <==> IsBlackjack(h))
    ensures h.isSplit ==> !IsBlackjack(h)
    ensures RulesIsBlackjack(h) <==> IsBlackjack(h.(isSplit := false))
  {
  }

  predicate RulesCanSplit(rules: Rules, h: Hand) {
    if |h.cards| == 2 && rules.allowSplit then h.cards[0].rank == h.cards[1].rank else false
  }

  predicate RulesCanDoubleDown(rules: Rules, h: Hand) {
    |h.cards| == 2 && rules.allowDoubleDown
  }

  predicate RulesCanSurrender(rules: Rules, h: Hand) {
    rules.allowSurrender && |h.cards| == 2
  }

  predicate RulesCanResplit(rules: Rules, h: Hand) {
    rules.allowResplitting && |h.cards| == 2 && h.cards[0].rank == h.cards[1].rank
  }

  /**
   * The legality tests are the hand's own two-card tests gated by the table
   * switches; resplitting is splitting under the resplit switch.
   */
  lemma LegalityIsGatedHandTest(rules: Rules, h: Hand)
    ensures RulesCanSplit(rules, h) <==> rules.allowSplit && CanSplit(h)
    ensures RulesCanDoubleDown(rules, h) <==> rules.allowDoubleDown && CanDouble(h)
    ensures RulesCanSurrender(rules, h) <==> rules.allowSurrender && CanDouble(h)
    ensures RulesCanResplit(rules, h) <==> RulesCanSplit(rules.(allowSplit := rules.allowResplitting), h)
  {
  }

  /** The `IndexError` raised by reading the up-card of an empty dealer hand. */
  datatype RulesError = NoDealerCard

  /**
   * Insurance as the source tests it: the up-card's rank is compared with the
   * text "A", which no rank ever equals, so the test can only fail — or raise
   * when insurance is allowed and the dealer holds no card.
   */
  function CanInsureAsWritten(rules: Rules, dealer: Hand): Result<bool, RulesError> {
    if !rules.allowInsurance then Ok(false)
    else if |dealer.cards| == 0 then Err(NoDealerCard)
    else Ok(false)
  }

  /** Insurance is offered when allowed, the dealer holds two cards, and the up-card is an ace. */
  predicate CanInsure(rules: Rules, dealer: Hand) {
    rules.allowInsurance && |dealer.cards| == 2 && dealer.cards[0].rank == Ace
  }

  /** The source's insurance test never says yes, while the intended one does for an ace up under the default rules. */
  lemma CanInsureAsWrittenNeverOffers(rules: Rules, dealer: Hand)
    ensures CanInsureAsWritten(rules, dealer) != Ok(true)
    ensures CanInsureAsWritten(rules, dealer).Err? <==> rules.allowInsurance && dealer.cards == []
    ensures var ace := Hand([Card(Some(Spades), Ace), Card(Some(Hearts), Ten)], false);
      CanInsure(DefaultRules, ace) && CanInsureAsWritten(DefaultRules, ace) == Ok(false)
  {
  }
}
