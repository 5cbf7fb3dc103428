/**
 * Dragon Tiger: one card each to Dragon and Tiger, the higher card wins,
 * and Dragon, Tiger and Tie bets are settled.
 */
module DragonTiger {
  import opened Cards

  datatype BetType = DragonBet | TigerBet | TieBet

  datatype Outcome = DragonWin | TigerWin | Tie

  datatype Settings = Settings(numDecks: nat, penetration: real, tiePayout: real, tiePush: bool)

  /** Eight decks dealt to 75%, ties paid 8 to 1, Dragon and Tiger bets lose on a tie. */
  const DefaultSettings := Settings(8, 0.75, 8.0, false)

  datatype RoundResult = RoundResult(outcome: Outcome, dragonCard: Card, tigerCard: Card, dragonValue: nat, tigerValue: nat)

  /**
   * The card's value: an ace is lowest at 1, two to ten their face value.
   * Jack, Queen and King share the rank of Ten, so they count 10 as well; a
   * joker matches no branch and counts 0.
   */
  function CardValue(c: Card): (v: nat)
    ensures v <= 10
    ensures v == 0 <==> c.rank == Joker
    ensures v == 1 <==> c.rank == Ace
    ensures c.rank != Ace ==> v == RankValue(c.rank)
    ensures c.rank == Jack || c.rank == Queen || c.rank == King ==> v == 10
  {
    match c.rank
    case Ace => 1
    case Two => 2 case Three => 3 case Four => 4 case Five => 5
    case Six => 6 case Seven => 7 case Eight => 8 case Nine => 9
    case Ten => 10
    case Joker => 0
  }

  /** The higher card wins; equal values tie. */
  function DetermineOutcome(dragon: Card, tiger: Card): (o: Outcome)
    ensures o == DragonWin <==> CardValue(dragon) > CardValue(tiger)
    ensures o == TigerWin <==> CardValue(tiger) > CardValue(dragon)
    ensures o == Tie <==> CardValue(dragon) == CardValue(tiger)
  {
    var d := CardValue(dragon);
    var t := CardValue(tiger);
    if d > t then DragonWin else if t > d then TigerWin else Tie
  }

  function Mirror(o: Outcome): Outcome {
    match o
    case DragonWin => TigerWin
    case TigerWin => DragonWin
    case Tie => Tie
  }

  /** Swapping the two cards swaps Dragon and Tiger; a card ties with itself. */
  lemma SwapSwapsWinner(dragon: Card, tiger: Card)
    ensures DetermineOutcome(tiger, dragon) == Mirror(DetermineOutcome(dragon, tiger))
    ensures DetermineOutcome(dragon, dragon) == Tie
  {
  }

  /**
   * The net result of a bet.  Dragon and Tiger bets pay even money on their
   * own side's win and lose on the other's; on a tie they lose, or are
   * returned when the table pushes ties.  A Tie bet pays the tie odds.
   */
  function Payout(settings: Settings, bet: BetType, amount: real, o: Outcome): (net: real)
    ensures bet == DragonBet && o == DragonWin ==> net == amount
    ensures bet == TigerBet && o == TigerWin ==> net == amount
    ensures bet == DragonBet && o == TigerWin ==> net == -amount
    ensures bet == TigerBet && o == DragonWin ==> net == -amount
    ensures bet != TieBet && o == Tie ==> net == (if settings.tiePush then 0.0 else -amount)
    ensures bet == TieBet ==> net == (if o == Tie then amount * settings.tiePayout else -amount)
  {
    match bet
    case DragonBet =>
      if o == DragonWin then amount
      else if o == Tie then (if settings.tiePush then 0.0 else -amount)
      else -amount
    case TigerBet =>
      if o == TigerWin then amount
      else if o == Tie then (if settings.tiePush then 0.0 else -amount)
      else -amount
    case TieBet =>
      if o == Tie then amount * settings.tiePayout else -amount
  }

  /**
   * A Dragon bet on a hand is a Tiger bet on the mirrored hand, and with a
   * non-negative tie price no bet loses more than its stake.
   */
  lemma PayoutSymmetric(settings: Settings, amount: real, o: Outcome)
    requires amount >= 0.0
    ensures Payout(settings, DragonBet, amount, o) == Payout(settings, TigerBet, amount, Mirror(o))
    ensures settings.tiePayout >= 0.0 ==> forall bet :: Payout(settings, bet, amount, o) >= -amount
    ensures o == Tie && settings.tiePush ==> Payout(settings, DragonBet, amount, o) == 0.0
  {
    assert amount * settings.tiePayout >= 0.0 || settings.tiePayout < 0.0;
  }

  class DragonTigerGame {
    var settings: Settings
    var shoe: seq<Card>
    var roundsPlayed: nat
    var dragonWins: nat
    var tigerWins: nat
    var ties: nat

    constructor(settings: Settings, shoe: seq<Card>)
      ensures this.settings == settings && this.shoe == shoe
      ensures roundsPlayed == 0 && dragonWins == 0 && tigerWins == 0 && ties == 0
    {
      this.settings := settings;
      this.shoe := shoe;
      roundsPlayed, dragonWins, tigerWins, ties := 0, 0, 0, 0;
    }

    /** Deals the next card from the end of the supply. */
    method Deal() returns (c: Card)
      requires |shoe| >= 1
      modifies this
      ensures shoe + [c] == old(shoe)
      ensures settings == old(settings) && roundsPlayed == old(roundsPlayed)
      ensures dragonWins == old(dragonWins) && tigerWins == old(tigerWins) && ties == old(ties)
    {
      c := shoe[|shoe| - 1];
      shoe := shoe[..|shoe| - 1];
    }

    /**
     * Plays one round: exactly two cards leave the supply, Dragon's first,
     * and exactly one outcome counter moves.
     */
    method PlayRound(bet: BetType, amount: real) returns (result: RoundResult, payout: real)
      requires |shoe| >= 2
      modifies this
      ensures shoe + [result.tigerCard, result.dragonCard] == old(shoe)
      ensures result.outcome == DetermineOutcome(result.dragonCard, result.tigerCard)
      ensures result.dragonValue == CardValue(result.dragonCard)
      ensures result.tigerValue == CardValue(result.tigerCard)
      ensures payout == Payout(settings, bet, amount, result.outcome)
      ensures settings == old(settings)
      ensures roundsPlayed == old(roundsPlayed) + 1
      ensures dragonWins + tigerWins + ties == old(dragonWins + tigerWins + ties) + 1
      ensures dragonWins == old(dragonWins) + (if result.outcome == DragonWin then 1 else 0)
      ensures tigerWins == old(tigerWins) + (if result.outcome == TigerWin then 1 else 0)
      ensures ties == old(ties) + (if result.outcome == Tie then 1 else 0)
    {
      var dragon := Deal();
      var tiger := Deal();
      var outcome := DetermineOutcome(dragon, tiger);
      roundsPlayed := roundsPlayed + 1;
      if outcome == DragonWin {
        dragonWins := dragonWins + 1;
      } else if outcome == TigerWin {
        tigerWins := tigerWins + 1;
      } else {
        ties := ties + 1;
      }
      payout := Payout(settings, bet, amount, outcome);
      result := RoundResult(outcome, dragon, tiger, CardValue(dragon), CardValue(tiger));
    }
  }
}
