/**
 * The classic blackjack variant: its action validator, its win resolver
 * and its payout calculator.
 */
module ClassicVariant {
  import opened Wrappers
  import opened Cards
  import opened BlackjackHands
  import opened BlackjackRound

  /** The rule settings the variant validators read. */
  datatype VariantRules = VariantRules(
    allowDoubleDown: bool,
    allowDoubleAfterSplit: bool,
    allowSurrender: bool,
    maxSplits: int)

  /** Doubling needs exactly two cards, double-after-split on a split hand, and the table's permission. */
  predicate ClassicCanDoubleDown(rules: VariantRules, numCards: int, isSplit: bool) {
    numCards == 2 && (!isSplit || rules.allowDoubleAfterSplit) && rules.allowDoubleDown
  }

  /** Surrender is only a first action, never after a double and never on a split hand. */
  predicate ClassicCanSurrender(rules: VariantRules, h: Hand, afterDouble: bool, isFirstAction: bool) {
    !afterDouble && isFirstAction && !h.isSplit && rules.allowSurrender
  }

  /**
   * Doubling is never allowed off two cards, nor on a split hand without
   * double-after-split; surrender is never allowed after a double, after a
   * first action, or on a split hand.
   */
  lemma ClassicLegality(rules: VariantRules, h: Hand, numCards: int, isSplit: bool, afterDouble: bool, isFirstAction: bool)
    ensures ClassicCanDoubleDown(rules, numCards, isSplit) ==> numCards == 2 && rules.allowDoubleDown
    ensures isSplit && !rules.allowDoubleAfterSplit ==> !ClassicCanDoubleDown(rules, numCards, isSplit)
    ensures ClassicCanSurrender(rules, h, afterDouble, isFirstAction) ==> !afterDouble && isFirstAction && !h.isSplit
    ensures !afterDouble && isFirstAction && !h.isSplit ==> (ClassicCanSurrender(rules, h, afterDouble, isFirstAction) <==> rules.allowSurrender)
  {
  }

  const ClassicCanSplitAcesAgain := false
  const ClassicCanHitSplitAces := false

  /** One hand more than the number of splits allowed. */
  function ClassicMaxHandsAfterSplit(rules: VariantRules): (n: int)
    ensures n > rules.maxSplits
    ensures n == rules.maxSplits + 1
  {
    rules.maxSplits + 1
  }

  /**
   * Classic resolution, in order: two blackjacks push, a player blackjack
   * wins, a dealer blackjack wins, a player bust loses, a dealer bust
   * loses, and otherwise the higher total wins.
   */
  function ClassicResolveValues(playerValue: int, dealerValue: int, playerBlackjack: bool, dealerBlackjack: bool): (w: Winner)
    ensures playerBlackjack && dealerBlackjack ==> w == Draw
    ensures playerBlackjack && !dealerBlackjack ==> w == PlayerWins
    ensures !playerBlackjack && dealerBlackjack ==> w == DealerWins
    ensures !playerBlackjack && !dealerBlackjack ==> w == HandWinner(playerValue, dealerValue)
  {
    if playerBlackjack && dealerBlackjack then Draw
    else if playerBlackjack then PlayerWins
    else if dealerBlackjack then DealerWins
    else if playerValue > 21 then DealerWins
    else if dealerValue > 21 then PlayerWins
    else if playerValue > dealerValue then PlayerWins
    else if dealerValue > playerValue then DealerWins
    else Draw
  }

  function ClassicResolve(player: Hand, dealer: Hand, playerBlackjack: bool, dealerBlackjack: bool): Winner {
    ClassicResolveValues(HandValue(player.cards), HandValue(dealer.cards), playerBlackjack, dealerBlackjack)
  }

  /**
   * Without blackjacks a busted player loses even to a busted dealer, a
   * busted dealer otherwise loses, and two standing totals compare; the
   * result is symmetric in the two standing totals.
   */
  lemma ClassicResolutionOrder(p: int, d: int)
    ensures p > 21 ==> ClassicResolveValues(p, d, false, false) == DealerWins
    ensures p <= 21 && d > 21 ==> ClassicResolveValues(p, d, false, false) == PlayerWins
    ensures p <= 21 && d <= 21 ==>
      (ClassicResolveValues(p, d, false, false) == PlayerWins <==> ClassicResolveValues(d, p, false, false) == DealerWins)
    ensures p <= 21 && d <= 21 ==> (ClassicResolveValues(p, d, false, false) == Draw <==> p == d)
  {
    HandWinnerRules(p, d);
  }

  datatype PayoutSettings = PayoutSettings(blackjackPayout: real, insurancePayout: real)

  const DefaultPayouts := PayoutSettings(1.5, 2.0)

  /** What a winning bet returns: the insurance odds, the blackjack odds plus the stake, or twice the stake. */
  function ClassicPayout(settings: PayoutSettings, bet: real, isBlackjack: bool, isInsuranceWin: bool): real {
    if isInsuranceWin then bet * settings.insurancePayout
    else if isBlackjack then bet * (1.0 + settings.blackjackPayout)
    else bet * 2.0
  }

  /**
   * For a winning hand the calculator returns what the end-of-round
   * settlement pays; with the default odds a blackjack returns 2.5 times
   * the stake and insurance 2 times.
   */
  lemma ClassicPayoutMatchesSettlement(settings: PayoutSettings, bet: real, isBlackjack: bool)
    requires bet != 0.0
    ensures HandPayoutAmount(bet, PlayerWins, isBlackjack, settings.blackjackPayout)
      == Some(ClassicPayout(settings, bet, isBlackjack, false))
    ensures ClassicPayout(DefaultPayouts, bet, true, false) == 2.5 * bet
    ensures ClassicPayout(DefaultPayouts, bet, isBlackjack, true) == 2.0 * bet
  {
    assert bet * (1.0 + settings.blackjackPayout) == bet + bet * settings.blackjackPayout;
  }
}
