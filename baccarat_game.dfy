/**
 * A round of baccarat: four cards dealt alternately to the Player and
 * Banker sides, third cards drawn by the fixed table, the higher value
 * wins, and bets on Player, Banker or Tie are settled.
 */
module BaccaratGames {
  import opened Cards
  import opened BaccaratHands
  import opened BaccaratRules

  datatype BetType = PlayerBet | BankerBet | TieBet

  datatype Outcome = PlayerWin | BankerWin | Tie

  datatype RoundResult = RoundResult(
    outcome: Outcome,
    playerValue: nat,
    bankerValue: nat,
    playerCards: nat,
    bankerCards: nat,
    playerNatural: bool,
    bankerNatural: bool)

  /** The higher value wins; equal values tie. */
  function DetermineOutcome(playerValue: int, bankerValue: int): (o: Outcome)
    ensures o == PlayerWin <==> playerValue > bankerValue
    ensures o == BankerWin <==> bankerValue > playerValue
    ensures o == Tie <==> playerValue == bankerValue
  {
    if playerValue > bankerValue then PlayerWin
    else if bankerValue > playerValue then BankerWin
    else Tie
  }

  /** The same outcome seen from the other side of the table. */
  function Mirror(o: Outcome): Outcome {
    match o
    case PlayerWin => BankerWin
    case BankerWin => PlayerWin
    case Tie => Tie
  }

  /** Exchanging the two values exchanges the winner. */
  lemma OutcomeSymmetric(p: int, b: int)
    ensures DetermineOutcome(b, p) == Mirror(DetermineOutcome(p, b))
    ensures Mirror(Mirror(DetermineOutcome(p, b))) == DetermineOutcome(p, b)
  {
  }

  /**
   * The net result of a bet: positive is won, negative is lost.  Player
   * bets pay even money, Banker bets even money less the commission, and
   * Tie bets the tie odds; a tie returns Player and Banker bets.
   */
  function Payout(settings: Settings, bet: BetType, amount: real, o: Outcome): (net: real)
    ensures bet == PlayerBet ==>
      net == (match o case PlayerWin => amount case Tie => 0.0 case BankerWin => -amount)
    ensures bet == BankerBet ==>
      net == (match o case BankerWin => amount * (1.0 - settings.bankerCommission) case Tie => 0.0 case PlayerWin => -amount)
    ensures bet == TieBet ==> net == (if o == Tie then amount * settings.tiePayout else -amount)
  {
    match bet
    case PlayerBet =>
      if o == PlayerWin then amount else if o == Tie then 0.0 else -amount
    case BankerBet =>
      if o == BankerWin then amount * (1.0 - settings.bankerCommission)
      else if o == Tie then 0.0
      else -amount
    case TieBet =>
      if o == Tie then amount * settings.tiePayout else -amount
  }

  /**
   * Without commission a Banker bet is the mirror image of a Player bet;
   * with a commission between 0 and 1 a winning Banker bet pays no more
   * than a winning Player bet, and no bet loses more than its stake.
   */
  lemma PayoutShape(settings: Settings, amount: real, o: Outcome)
    requires amount >= 0.0
    ensures settings.bankerCommission == 0.0 ==>
      Payout(settings, BankerBet, amount, Mirror(o)) == Payout(settings, PlayerBet, amount, o)
    ensures 0.0 <= settings.bankerCommission <= 1.0 ==>
      0.0 <= Payout(settings, BankerBet, amount, BankerWin) <= Payout(settings, PlayerBet, amount, PlayerWin)
    ensures settings.tiePayout >= 0.0 && 0.0 <= settings.bankerCommission <= 1.0 ==>
      forall bet :: Payout(settings, bet, amount, o) >= -amount
  {
    var c := settings.bankerCommission;
    if 0.0 <= c <= 1.0 {
      CommissionCut(amount, c);
    }
    if settings.tiePayout >= 0.0 {
      assert amount * settings.tiePayout >= 0.0;
    }
  }

  lemma CommissionCut(amount: real, c: real)
    requires amount >= 0.0 && 0.0 <= c <= 1.0
    ensures 0.0 <= amount * (1.0 - c) <= amount
  {
    assert amount * (1.0 - c) == amount - amount * c;
    assert amount * c >= 0.0;
    assert amount * c <= amount * 1.0;
  }

  /** Cards on the table during a round: the two hands and the undealt supply. */
  datatype Table = Table(player: seq<Card>, banker: seq<Card>, shoe: seq<Card>)

  /** The next card is taken from the end of the supply. */
  function Top(shoe: seq<Card>): Card
    requires |shoe| >= 1
  {
    shoe[|shoe| - 1]
  }

  function Rest(shoe: seq<Card>): seq<Card>
    requires |shoe| >= 1
  {
    shoe[..|shoe| - 1]
  }

  function AllCards(t: Table): multiset<Card> {
    multiset(t.player) + multiset(t.banker) + multiset(t.shoe)
  }

  /** The top card of the supply goes to the Player side. */
  function ToPlayer(t: Table): (r: Table)
    requires |t.shoe| >= 1
    ensures r.player == t.player + [Top(t.shoe)] && r.banker == t.banker && r.shoe == Rest(t.shoe)
    ensures AllCards(r) == AllCards(t)
  {
    assert t.shoe == Rest(t.shoe) + [Top(t.shoe)];
    Table(t.player + [Top(t.shoe)], t.banker, Rest(t.shoe))
  }

  /** The top card of the supply goes to the Banker side. */
  function ToBanker(t: Table): (r: Table)
    requires |t.shoe| >= 1
    ensures r.banker == t.banker + [Top(t.shoe)] && r.player == t.player && r.shoe == Rest(t.shoe)
    ensures AllCards(r) == AllCards(t)
  {
    assert t.shoe == Rest(t.shoe) + [Top(t.shoe)];
    Table(t.player, t.banker + [Top(t.shoe)], Rest(t.shoe))
  }

  /** The opening deal: Player, Banker, Player, Banker. */
  function InitialDeal(t: Table): (r: Table)
    requires |t.shoe| >= 4
    ensures r.player == t.player + [Top(t.shoe), Top(Rest(Rest(t.shoe)))]
    ensures r.banker == t.banker + [Top(Rest(t.shoe)), Top(Rest(Rest(Rest(t.shoe))))]
    ensures |r.player| == |t.player| + 2 && |r.banker| == |t.banker| + 2
    ensures |r.shoe| == |t.shoe| - 4 && AllCards(r) == AllCards(t)
  {
    var t1 := ToPlayer(t);
    var t2 := ToBanker(t1);
    var t3 := ToPlayer(t2);
    var t4 := ToBanker(t3);
    assert t4.player == t.player + [Top(t.shoe), Top(t2.shoe)];
    assert t4.banker == t.banker + [Top(t1.shoe), Top(t3.shoe)];
    t4
  }

  /**
   * The third-card stage: a natural on either side ends the drawing;
   * otherwise the Player side draws by its own total and the Banker side by
   * its total and the Player side's third card.
   */
  function DrawThirdCards(t: Table): (r: Table)
    requires |t.shoe| >= 2
    ensures IsNatural(t.player) || IsNatural(t.banker) ==> r == t
    ensures |r.player| == |t.player| || |r.player| == |t.player| + 1
    ensures |r.banker| == |t.banker| || |r.banker| == |t.banker| + 1
    ensures r.player[..|t.player|] == t.player && r.banker[..|t.banker|] == t.banker
    ensures AllCards(r) == AllCards(t)
  {
    if IsNatural(t.player) || IsNatural(t.banker) then t
    else
      var drew := PlayerDraws(Value(t.player));
      var t1 := if drew then ToPlayer(t) else t;
      var third := if drew then ThirdCardValue(t1.player) else -1;
      if BankerDraws(Value(t1.banker), drew, third) then ToBanker(t1) else t1
  }

  /**
   * After a two-card deal with no natural, the Player side holds a third
   * card exactly when its total is 5 or less, and the Banker side exactly
   * when the drawing table says so for the Player side's third card.
   */
  lemma DrawingFollowsTable(t: Table)
    requires |t.shoe| >= 2 && |t.player| == 2 && |t.banker| == 2
    requires !IsNatural(t.player) && !IsNatural(t.banker)
    ensures var r := DrawThirdCards(t);
      var drew := PlayerDraws(Value(t.player));
      && (|r.player| == 3 <==> drew)
      && (drew ==> r.player[2] == Top(t.shoe))
      && (|r.banker| == 3 <==>
           BankerDraws(Value(t.banker), drew, if drew then Points(Top(t.shoe).rank) else -1))
  {
  }

  /** Drawing never creates or removes a natural on a two-card deal. */
  lemma NaturalSurvivesDrawing(t: Table)
    requires |t.shoe| >= 2 && |t.player| == 2 && |t.banker| == 2
    ensures var r := DrawThirdCards(t);
      (IsNatural(r.player) || IsNatural(r.banker)) <==> (IsNatural(t.player) || IsNatural(t.banker))
  {
  }

  /** A round: fresh hands, the opening deal, then the third-card stage. */
  function RoundCards(shoe: seq<Card>): Table
    requires |shoe| >= 6
  {
    DrawThirdCards(InitialDeal(Table([], [], shoe)))
  }

  /** A round takes four to six cards from the supply and leaves the rest in it. */
  lemma RoundTakesCards(shoe: seq<Card>)
    requires |shoe| >= 6
    ensures var r := RoundCards(shoe);
      && 4 <= |r.player| + |r.banker| <= 6
      && |r.player| + |r.banker| + |r.shoe| == |shoe|
  {
    var dealt := InitialDeal(Table([], [], shoe));
    var r := DrawThirdCards(dealt);
    RoundKeepsCards(shoe);
    assert |AllCards(r)| == |r.player| + |r.banker| + |r.shoe|;
  }

  /** The hands and the rest of the supply hold exactly the cards the supply had. */
  lemma RoundKeepsCards(shoe: seq<Card>)
    requires |shoe| >= 6
    ensures AllCards(RoundCards(shoe)) == multiset(shoe)
  {
    var start := Table([], [], shoe);
    assert AllCards(start) == multiset(shoe);
  }

  /** A round shows a natural exactly when its opening deal did. */
  lemma RoundNaturals(shoe: seq<Card>)
    requires |shoe| >= 6
    ensures var dealt := InitialDeal(Table([], [], shoe));
      && |dealt.shoe| >= 2 && RoundCards(shoe) == DrawThirdCards(dealt)
      && ((IsNatural(RoundCards(shoe).player) || IsNatural(RoundCards(shoe).banker))
          <==> (IsNatural(dealt.player) || IsNatural(dealt.banker)))
  {
    var dealt := InitialDeal(Table([], [], shoe));
    assert |dealt.player| == 2 && |dealt.banker| == 2 && |dealt.shoe| >= 2;
    NaturalSurvivesDrawing(dealt);
  }

  class BaccaratGame {
    var settings: Settings
    var shoe: seq<Card>
    var playerHand: BaccaratHand
    var bankerHand: BaccaratHand
    var roundsPlayed: nat
    var playerWins: nat
    var bankerWins: nat
    var ties: nat
    var naturals: nat

    predicate Valid()
      reads this
    {
      playerHand != bankerHand
    }

    function Cards(): Table
      reads this, playerHand, bankerHand
    {
      Table(playerHand.cards, bankerHand.cards, shoe)
    }

    constructor(settings: Settings, shoe: seq<Card>)
      ensures Valid() && this.settings == settings && this.shoe == shoe
      ensures playerHand.cards == [] && bankerHand.cards == []
      ensures roundsPlayed == 0 && playerWins == 0 && bankerWins == 0 && ties == 0 && naturals == 0
    {
      this.settings := settings;
      this.shoe := shoe;
      playerHand := new BaccaratHand();
      bankerHand := new BaccaratHand();
      roundsPlayed, playerWins, bankerWins, ties, naturals := 0, 0, 0, 0, 0;
    }

    method ResetHands()
      modifies this
      ensures Valid() && fresh(playerHand) && fresh(bankerHand)
      ensures Cards() == Table([], [], old(shoe)) && shoe == old(shoe)
      ensures settings == old(settings)
      ensures roundsPlayed == old(roundsPlayed) && naturals == old(naturals)
      ensures playerWins == old(playerWins) && bankerWins == old(bankerWins) && ties == old(ties)
    {
      playerHand := new BaccaratHand();
      bankerHand := new BaccaratHand();
    }

    method DealOne() returns (c: Card)
      requires |shoe| >= 1
      modifies this
      ensures c == Top(old(shoe)) && shoe == Rest(old(shoe))
      ensures settings == old(settings) && playerHand == old(playerHand) && bankerHand == old(bankerHand)
      ensures roundsPlayed == old(roundsPlayed) && naturals == old(naturals)
      ensures playerWins == old(playerWins) && bankerWins == old(bankerWins) && ties == old(ties)
    {
      c := shoe[|shoe| - 1];
      shoe := shoe[..|shoe| - 1];
    }

    method DealInitialCards()
      requires Valid() && |shoe| >= 4
      modifies this, playerHand, bankerHand
      ensures Valid() && Cards() == InitialDeal(old(Cards()))
      ensures settings == old(settings) && playerHand == old(playerHand) && bankerHand == old(bankerHand)
      ensures roundsPlayed == old(roundsPlayed) && naturals == old(naturals)
      ensures playerWins == old(playerWins) && bankerWins == old(bankerWins) && ties == old(ties)
    {
      var c := DealOne();
      playerHand.AddCard(c);
      c := DealOne();
      bankerHand.AddCard(c);
      c := DealOne();
      playerHand.AddCard(c);
      c := DealOne();
      bankerHand.AddCard(c);
    }

    method ApplyDrawingRules()
      requires Valid() && |shoe| >= 2
      modifies this, playerHand, bankerHand
      ensures Valid() && Cards() == DrawThirdCards(old(Cards()))
      ensures naturals == old(naturals) + (if IsNatural(old(playerHand.cards)) || IsNatural(old(bankerHand.cards)) then 1 else 0)
      ensures settings == old(settings) && playerHand == old(playerHand) && bankerHand == old(bankerHand)
      ensures roundsPlayed == old(roundsPlayed)
      ensures playerWins == old(playerWins) && bankerWins == old(bankerWins) && ties == old(ties)
    {
      if IsNatural(playerHand.cards) || IsNatural(bankerHand.cards) {
        naturals := naturals + 1;
        return;
      }
      var playerValue := playerHand.HandValue();
      var playerDrew := false;
      var playerThird := -1;
      if PlayerDraws(playerValue) {
        var c := DealOne();
        playerHand.AddCard(c);
        playerDrew := true;
        playerThird := ThirdCardValue(playerHand.cards);
      }
      var bankerValue := bankerHand.HandValue();
      if BankerDraws(bankerValue, playerDrew, playerThird) {
        var c := DealOne();
        bankerHand.AddCard(c);
      }
    }

    /** Counts a finished round under its outcome. */
    method RecordOutcome(outcome: Outcome)
      modifies this
      ensures roundsPlayed == old(roundsPlayed) + 1
      ensures playerWins == old(playerWins) + (if outcome == PlayerWin then 1 else 0)
      ensures bankerWins == old(bankerWins) + (if outcome == BankerWin then 1 else 0)
      ensures ties == old(ties) + (if outcome == Tie then 1 else 0)
      ensures settings == old(settings) && shoe == old(shoe) && naturals == old(naturals)
      ensures playerHand == old(playerHand) && bankerHand == old(bankerHand)
    {
      roundsPlayed := roundsPlayed + 1;
      if outcome == PlayerWin {
        playerWins := playerWins + 1;
      } else if outcome == BankerWin {
        bankerWins := bankerWins + 1;
      } else {
        ties := ties + 1;
      }
    }

    /** Fresh hands, the opening deal and the third-card stage. */
    method DealRound()
      requires |shoe| >= 6
      modifies this
      ensures Valid() && fresh(playerHand) && fresh(bankerHand)
      ensures Cards() == RoundCards(old(shoe))
      ensures naturals == old(naturals) + (if IsNatural(playerHand.cards) || IsNatural(bankerHand.cards) then 1 else 0)
      ensures settings == old(settings) && roundsPlayed == old(roundsPlayed)
      ensures playerWins == old(playerWins) && bankerWins == old(bankerWins) && ties == old(ties)
    {
      RoundNaturals(shoe);
      ResetHands();
      DealInitialCards();
      ApplyDrawingRules();
    }

    /**
     * Plays one round and settles one bet.  Exactly one of the three outcome
     * counters moves, and the natural counter moves when either side was
     * dealt a natural.
     */
    method PlayRound(bet: BetType, amount: real) returns (result: RoundResult, payout: real)
      requires |shoe| >= 6
      modifies this
      ensures Valid() && Cards() == RoundCards(old(shoe))
      ensures result.outcome == DetermineOutcome(Value(playerHand.cards), Value(bankerHand.cards))
      ensures result.playerValue == Value(playerHand.cards) && result.bankerValue == Value(bankerHand.cards)
      ensures result.playerCards == |playerHand.cards| && result.bankerCards == |bankerHand.cards|
      ensures result.playerNatural == IsNatural(playerHand.cards)
      ensures result.bankerNatural == IsNatural(bankerHand.cards)
      ensures payout == Payout(settings, bet, amount, result.outcome)
      ensures settings == old(settings)
      ensures roundsPlayed == old(roundsPlayed) + 1
      ensures playerWins + bankerWins + ties == old(playerWins + bankerWins + ties) + 1
      ensures playerWins == old(playerWins) + (if result.outcome == PlayerWin then 1 else 0)
      ensures bankerWins == old(bankerWins) + (if result.outcome == BankerWin then 1 else 0)
      ensures ties == old(ties) + (if result.outcome == Tie then 1 else 0)
      ensures naturals == old(naturals) + (if result.playerNatural || result.bankerNatural then 1 else 0)
    {
      DealRound();
      ghost var dealt := Cards();
      var playerValue := playerHand.HandValue();
      var bankerValue := bankerHand.HandValue();
      var outcome := DetermineOutcome(playerValue, bankerValue);
      RecordOutcome(outcome);
      assert Cards() == dealt;
      payout := Payout(settings, bet, amount, outcome);
      result := RoundResult(outcome, playerValue, bankerValue, playerHand.CardCount(), bankerHand.CardCount(),
                            IsNatural(playerHand.cards), IsNatural(bankerHand.cards));
    }
  }
}
