/**
 * The Spanish 21 variant: liberal action rules, a resolver under which a
 * player's 21 always wins, bonus payouts for special 21s, and its deck.
 */
module Spanish21Variant {
  import opened Wrappers
  import opened Cards
  import opened Decks
  import opened BlackjackHands
  import opened BlackjackRound
  import opened ClassicVariant

  /** Doubling is allowed on any number of cards, split or not, when the table allows doubling. */
  predicate SpanishCanDoubleDown(rules: VariantRules, numCards: int, isSplit: bool) {
    rules.allowDoubleDown
  }

  /** Surrender is allowed at any point, even after a double, except on a split hand. */
  predicate SpanishCanSurrender(rules: VariantRules, h: Hand, afterDouble: bool, isFirstAction: bool) {
    !h.isSplit && rules.allowSurrender
  }

  const SpanishCanSplitAcesAgain := true
  const SpanishCanHitSplitAces := true
  const SpanishMaxHandsAfterSplit := 4

  /**
   * Spanish 21 allows every double and every surrender the classic rules
   * allow, and more: doubling on three or more cards, and surrendering
   * after a double or a first action.
   */
  lemma SpanishAllowsMore(rules: VariantRules, h: Hand, numCards: int, afterDouble: bool, isFirstAction: bool)
    ensures ClassicCanDoubleDown(rules, numCards, h.isSplit) ==> SpanishCanDoubleDown(rules, numCards, h.isSplit)
    ensures ClassicCanSurrender(rules, h, afterDouble, isFirstAction) ==> SpanishCanSurrender(rules, h, afterDouble, isFirstAction)
    ensures numCards != 2 ==> !ClassicCanDoubleDown(rules, numCards, h.isSplit)
    ensures numCards != 2 ==> (SpanishCanDoubleDown(rules, numCards, h.isSplit) <==> rules.allowDoubleDown)
    ensures afterDouble ==> !ClassicCanSurrender(rules, h, afterDouble, isFirstAction)
    ensures afterDouble ==> (SpanishCanSurrender(rules, h, afterDouble, isFirstAction) <==> !h.isSplit && rules.allowSurrender)
    ensures h.isSplit ==> !SpanishCanSurrender(rules, h, afterDouble, isFirstAction)
  {
  }

  /**
   * Spanish 21 resolution, in order: a player blackjack wins, a player 21
   * wins, a dealer blackjack wins, a player bust loses, a dealer bust
   * loses, and otherwise the higher total wins.
   */
  function SpanishResolveValues(playerValue: int, dealerValue: int, playerBlackjack: bool, dealerBlackjack: bool): (w: Winner)
    ensures playerBlackjack || playerValue == 21 ==> w == PlayerWins
    ensures !playerBlackjack && playerValue != 21 && dealerBlackjack ==> w == DealerWins
    ensures !playerBlackjack && playerValue != 21 && !dealerBlackjack ==> w == HandWinner(playerValue, dealerValue)
  {
    if playerBlackjack then PlayerWins
    else if playerValue == 21 then PlayerWins
    else if dealerBlackjack then DealerWins
    else if playerValue > 21 then DealerWins
    else if dealerValue > 21 then PlayerWins
    else if playerValue > dealerValue then PlayerWins
    else if dealerValue > playerValue then DealerWins
    else Draw
  }

  function SpanishResolve(player: Hand, dealer: Hand, playerBlackjack: bool, dealerBlackjack: bool): Winner {
    SpanishResolveValues(HandValue(player.cards), HandValue(dealer.cards), playerBlackjack, dealerBlackjack)
  }

  /** How good a result is for the player. */
  function Favour(w: Winner): nat {
    match w
    case PlayerWins => 2
    case Draw => 1
    case DealerWins => 0
  }

  /**
   * The Spanish 21 resolver never rules against the player where the
   * classic one rules for them, and it differs from the classic one only on
   * hands where the player holds a blackjack or a 21.
   */
  lemma SpanishNeverWorseThanClassic(p: int, d: int, pbj: bool, dbj: bool)
    ensures Favour(SpanishResolveValues(p, d, pbj, dbj)) >= Favour(ClassicResolveValues(p, d, pbj, dbj))
    ensures !pbj && p != 21 ==> SpanishResolveValues(p, d, pbj, dbj) == ClassicResolveValues(p, d, pbj, dbj)
    ensures pbj && dbj ==> ClassicResolveValues(p, d, pbj, dbj) == Draw && SpanishResolveValues(p, d, pbj, dbj) == PlayerWins
  {
  }

  /** A bonus hand: its name, the multiplier added to the stake, and a description. */
  datatype SpecialHand = SpecialHand(name: string, multiplier: real, description: string)

  /** Every card of a non-empty hand has the first card's suit. */
  predicate SameSuit(cards: seq<Card>) {
    forall i :: 0 <= i < |cards| ==> cards[i].suit == cards[0].suit
  }

  /** The three rank values, in any order. */
  function RankValues3(cards: seq<Card>): multiset<nat>
    requires |cards| == 3
  {
    multiset{RankValue(cards[0].rank), RankValue(cards[1].rank), RankValue(cards[2].rank)}
  }

  /**
   * The bonus hands, all of them worth exactly 21: five cards pay 1/2,
   * six cards 1, seven or more 2; a three-card 6-7-8 pays 2 in spades, 1
   * suited and 1/2 mixed; a three-card 7-7-7 pays 1 suited and 1/2 mixed.
   */
  function EvaluateSpecialHand(h: Hand): (r: Option<SpecialHand>)
    ensures r.Some? ==> HandValue(h.cards) == 21
    ensures r.Some? ==> |h.cards| == 3 || |h.cards| >= 5
    ensures HandValue(h.cards) == 21 && |h.cards| == 5 ==> r.Some? && r.value.multiplier == 0.5
    ensures HandValue(h.cards) == 21 && |h.cards| == 6 ==> r.Some? && r.value.multiplier == 1.0
    ensures HandValue(h.cards) == 21 && |h.cards| >= 7 ==> r.Some? && r.value.multiplier == 2.0
    ensures r.Some? ==> r.value.multiplier in {0.5, 1.0, 2.0}
  {
    var cards := h.cards;
    if HandValue(cards) != 21 then None
    else if |cards| == 5 then Some(SpecialHand("5-card-21", 0.5, "Five Card 21"))
    else if |cards| == 6 then Some(SpecialHand("6-card-21", 1.0, "Six Card 21"))
    else if |cards| >= 7 then Some(SpecialHand("7-card-21", 2.0, "Seven or More Card 21"))
    else if |cards| == 3 then
      if RankValues3(cards) == multiset{6, 7, 8} then
        if SameSuit(cards) then
          if cards[0].suit == Some(Spades) then Some(SpecialHand("6-7-8-spades", 2.0, "6-7-8 Suited Spades"))
          else Some(SpecialHand("6-7-8-suited", 1.0, "6-7-8 Suited"))
        else Some(SpecialHand("6-7-8-mixed", 0.5, "6-7-8 Mixed Suits"))
      else if RankValues3(cards) == multiset{7, 7, 7} then
        if SameSuit(cards) then Some(SpecialHand("7-7-7-suited", 1.0, "7-7-7 Suited"))
        else Some(SpecialHand("7-7-7-mixed", 0.5, "7-7-7 Mixed Suits"))
      else None
    else None
  }

  /** The three-card table: a suited six-seven-eight of spades pays double, a mixed seven-seven-seven pays half. */
  lemma ThreeCardBonuses()
    ensures var h := Hand([Card(Some(Spades), Six), Card(Some(Spades), Seven), Card(Some(Spades), Eight)], false);
      EvaluateSpecialHand(h) == Some(SpecialHand("6-7-8-spades", 2.0, "6-7-8 Suited Spades"))
    ensures var h := Hand([Card(Some(Hearts), Seven), Card(Some(Spades), Seven), Card(Some(Spades), Seven)], false);
      EvaluateSpecialHand(h) == Some(SpecialHand("7-7-7-mixed", 0.5, "7-7-7 Mixed Suits"))
  {
    var a := [Card(Some(Spades), Six), Card(Some(Spades), Seven), Card(Some(Spades), Eight)];
    assert a[..2][..1] == [a[0]] && a[..2] == [a[0], a[1]];
    assert NumAces(a) == 0 && NonAceValue(a) == 21;
    var b := [Card(Some(Hearts), Seven), Card(Some(Spades), Seven), Card(Some(Spades), Seven)];
    assert b[..2][..1] == [b[0]] && b[..2] == [b[0], b[1]];
    assert NumAces(b) == 0 && NonAceValue(b) == 21;
    assert b[1].suit != b[0].suit;
  }

  /** Spanish 21 pays blackjack at 3 to 2 and insurance at 2 to 1. */
  const SpanishPayouts := PayoutSettings(1.5, 2.0)

  /**
   * What a winning bet returns: insurance first, then a bonus hand's
   * multiplier plus the stake, then the blackjack odds, then even money.
   */
  function SpanishPayout(bet: real, special: Option<SpecialHand>, isBlackjack: bool, isInsuranceWin: bool): real {
    if isInsuranceWin then bet * SpanishPayouts.insurancePayout
    else if special.Some? then bet * (1.0 + special.value.multiplier)
    else if isBlackjack then bet * (1.0 + SpanishPayouts.blackjackPayout)
    else bet * 2.0
  }

  /**
   * A bonus hand is paid by its multiplier even when it is also a
   * blackjack; without one the Spanish 21 payout is the classic payout at
   * the classic default odds, and a bonus never pays less than even money.
   */
  lemma SpanishPayoutPrecedence(bet: real, special: Option<SpecialHand>, isBlackjack: bool)
    requires bet >= 0.0
    ensures special.Some? ==> SpanishPayout(bet, special, isBlackjack, false) == bet * (1.0 + special.value.multiplier)
    ensures special.None? ==> SpanishPayout(bet, special, isBlackjack, false) == ClassicPayout(DefaultPayouts, bet, isBlackjack, false)
    ensures special.Some? && special.value.multiplier >= 0.0 ==> SpanishPayout(bet, special, isBlackjack, false) >= bet
  {
    if special.Some? && special.value.multiplier >= 0.0 {
      assert bet * (1.0 + special.value.multiplier) == bet + bet * special.value.multiplier;
      assert bet * special.value.multiplier >= 0.0;
    }
  }

  /** The members of the rank enumeration in order; Jack, Queen and King are aliases of Ten and not listed again. */
  const EnumRanks: seq<Rank> := [Two, Three, Four, Five, Six, Seven, Eight, Nine, Ten, Ace, Joker]

  /** The ranks the deck loop keeps: not the joker, and not Ten, which is also every face card. */
  predicate KeptAsWritten(r: Rank) {
    r != Joker && r != Ten
  }

  /** The cards of one suit the deck loop emits for the ranks in `ranks`. */
  function SuitRowAsWritten(s: Suit, ranks: seq<Rank>): (row: seq<Card>)
    ensures |row| <= |ranks|
  {
    if ranks == [] then []
    else
      var r := ranks[|ranks| - 1];
      SuitRowAsWritten(s, ranks[..|ranks| - 1]) + (if KeptAsWritten(r) then [Card(Some(s), r)] else [])
  }

  /** The deck the loop builds from the suits in `suits`. */
  function DeckAsWritten(suits: seq<Suit>): (d: seq<Card>)
    ensures |d| <= |suits| * |EnumRanks|
  {
    if suits == [] then []
    else DeckAsWritten(suits[..|suits| - 1]) + SuitRowAsWritten(suits[|suits| - 1], EnumRanks)
  }

  lemma RowStep(s: Suit, ranks: seq<Rank>, i: nat)
    requires i < |ranks|
    ensures SuitRowAsWritten(s, ranks[..i + 1]) ==
      SuitRowAsWritten(s, ranks[..i]) + (if KeptAsWritten(ranks[i]) then [Card(Some(s), ranks[i])] else [])
  {
    assert ranks[..i + 1][..i] == ranks[..i];
  }

  lemma DeckStep(suits: seq<Suit>, i: nat)
    requires i < |suits|
    ensures DeckAsWritten(suits[..i + 1]) == DeckAsWritten(suits[..i]) + SuitRowAsWritten(suits[i], EnumRanks)
  {
    assert suits[..i + 1][..i] == suits[..i];
  }

  /** The deck as the source builds it: for each suit, each enumerated rank but the joker and Ten. */
  method CreateDeckAsWritten() returns (cards: seq<Card>)
    ensures cards == DeckAsWritten(AllSuits)
  {
    cards := [];
    var si := 0;
    while si < |AllSuits|
      invariant 0 <= si <= |AllSuits|
      invariant cards == DeckAsWritten(AllSuits[..si])
    {
      var row := SuitRowLoop(AllSuits[si]);
      cards := cards + row;
      DeckStep(AllSuits, si);
      si := si + 1;
    }
    assert AllSuits[..si] == AllSuits;
  }

  /** The inner loop of the deck build: one suit's cards. */
  method SuitRowLoop(suit: Suit) returns (row: seq<Card>)
    ensures row == SuitRowAsWritten(suit, EnumRanks)
  {
    row := [];
    var ri := 0;
    while ri < |EnumRanks|
      invariant 0 <= ri <= |EnumRanks|
      invariant row == SuitRowAsWritten(suit, EnumRanks[..ri])
    {
      var rank := EnumRanks[ri];
      RowStep(suit, EnumRanks, ri);
      if rank == Joker {
        ri := ri + 1;
        continue;
      }
      if rank != Ten {
        row := row + [Card(Some(suit), rank)];
      }
      ri := ri + 1;
    }
    assert EnumRanks[..ri] == EnumRanks;
  }

  /** Every card the loop emits has a kept rank. */
  lemma {:induction false} RowKeepsRanks(s: Suit, ranks: seq<Rank>, c: Card)
    requires c in SuitRowAsWritten(s, ranks)
    ensures KeptAsWritten(c.rank)
  {
    var r := ranks[|ranks| - 1];
    if c !in SuitRowAsWritten(s, ranks[..|ranks| - 1]) {
      assert c == Card(Some(s), r) && KeptAsWritten(r);
    } else {
      RowKeepsRanks(s, ranks[..|ranks| - 1], c);
    }
  }

  lemma {:induction false} DeckKeepsRanks(suits: seq<Suit>, c: Card)
    requires c in DeckAsWritten(suits)
    ensures KeptAsWritten(c.rank)
  {
    var last := suits[|suits| - 1];
    if c in SuitRowAsWritten(last, EnumRanks) {
      RowKeepsRanks(last, EnumRanks, c);
    } else {
      DeckKeepsRanks(suits[..|suits| - 1], c);
    }
  }

  /** Each suit yields nine cards: two to nine and the ace. */
  lemma RowAsWrittenHasNine(s: Suit)
    ensures |SuitRowAsWritten(s, EnumRanks)| == 9
  {
    var e := EnumRanks;
    for k := 0 to 11
      invariant |SuitRowAsWritten(s, e[..k])| == if k <= 8 then k else if k == 9 then 8 else 9
    {
      RowStep(s, e, k);
    }
    assert e[..11] == e;
  }

  /**
   * As written the deck has 36 cards and no ten-valued card at all, so no
   * two of its cards make 21 and a blackjack can never be dealt.
   */
  lemma DeckAsWrittenLacksTens(a: Card, b: Card)
    requires a in DeckAsWritten(AllSuits) && b in DeckAsWritten(AllSuits)
    ensures |DeckAsWritten(AllSuits)| == 36
    ensures RankValue(a.rank) < 10 && RankValue(b.rank) < 10
    ensures HandValue([a, b]) != 21
  {
    var s := AllSuits;
    RowAsWrittenHasNine(Hearts);
    RowAsWrittenHasNine(Diamonds);
    RowAsWrittenHasNine(Clubs);
    RowAsWrittenHasNine(Spades);
    DeckStep(s, 0);
    DeckStep(s, 1);
    DeckStep(s, 2);
    DeckStep(s, 3);
    assert s[..0] == [] && s[..4] == s;
    DeckKeepsRanks(s, a);
    DeckKeepsRanks(s, b);
    TwoCardCounts([a, b]);
  }

  /** The ranks of one suit in the intended deck: the thirteen entries less the ten itself, keeping the three face cards. */
  const SpanishRanks: seq<Rank> := [Two, Three, Four, Five, Six, Seven, Eight, Nine, Jack, Queen, King, Ace]

  /** The intended 48-card Spanish deck: each suit's entries without its ten. */
  function SpanishDeck(): (d: seq<Card>)
    ensures |d| == 48
    ensures forall i :: 0 <= i < 48 ==> d[i] == Card(Some(AllSuits[i / 12]), SpanishRanks[i % 12])
  {
    seq(48, i requires 0 <= i < 48 => Card(Some(AllSuits[i / 12]), SpanishRanks[i % 12]))
  }

  /**
   * Each suit of the intended deck is the standard suit less its one Ten
   * entry, so it keeps the three face cards (entries 8 to 10, all
   * ten-valued) and no joker, and an ace with a king makes a blackjack.
   */
  lemma SpanishDeckKeepsFaces()
    ensures SuitRanks == SpanishRanks[..8] + [Ten] + SpanishRanks[8..]
    ensures forall i :: 0 <= i < 12 ==> (RankValue(SpanishRanks[i]) == 10 <==> 8 <= i <= 10)
    ensures Joker !in SpanishRanks
    ensures HandValue([SpanishDeck()[11], SpanishDeck()[10]]) == 21
  {
    var d := SpanishDeck();
    assert d[11] == Card(Some(Hearts), Ace) && d[10] == Card(Some(Hearts), King);
    TwoCardCounts([d[11], d[10]]);
  }
}
