/**
 * The blackjack player and dealer.  The player object keeps its money and
 * its bet bookkeeping in fields that each action updates in place.
 *
 * The player's current hand is its first hand (`hands[0]`), as for the
 * dealer: a split keeps the first card there and moves the second card to a
 * new hand at the end of the list.
 */
module Actors {
  import opened Wrappers
  import opened Cards
  import opened BlackjackHands

  datatype Action = Hit | Stand | Double | Split | Surrender | Insurance

  /** Every action, in declaration order. */
  const AllActions: seq<Action> := [Hit, Stand, Double, Split, Surrender, Insurance]

  datatype PlayerError = InsufficientFunds | InvalidAction

  class Player {
    var money: int
    var bet: int
    var insurance: int
    var totalBets: int
    var totalWinnings: int
    var hands: seq<Hand>
    var done: bool
    var blackjack: bool

    /** There is always a current hand. */
    predicate Valid()
      reads this
    {
      |hands| >= 1
    }

    function CurrentHand(): Hand
      reads this
      requires Valid()
    {
      hands[0]
    }

    /**
     * Money plus everything staked minus everything won.  Betting, splitting,
     * doubling and payouts move money between these columns without
     * changing this sum.
     */
    function Ledger(): int
      reads this
    {
      money + totalBets - totalWinnings
    }

    constructor (initialMoney: int)
      ensures Valid() && money == initialMoney && bet == 0 && insurance == 0
      ensures totalBets == 0 && totalWinnings == 0 && hands == [Hand([], false)]
      ensures !done && !blackjack
    {
      money := initialMoney;
      bet := 0;
      insurance := 0;
      totalBets := 0;
      totalWinnings := 0;
      hands := [Hand([], false)];
      done := false;
      blackjack := false;
    }

    /** The actions offered: none once done or without cards, hit or stand on one card, every action otherwise. */
    function ValidActions(): (acts: seq<Action>)
      reads this
      requires Valid()
      ensures done || CurrentHand().cards == [] ==> acts == []
      ensures !done && |CurrentHand().cards| == 1 ==> acts == [Hit, Stand]
      ensures !done && |CurrentHand().cards| >= 2 ==> acts == AllActions
    {
      if done then []
      else if CurrentHand().cards == [] then []
      else if |CurrentHand().cards| == 1 then [Hit, Stand]
      else if CanSplit(CurrentHand()) then AllActions
      else [Hit, Stand, Double, Split, Surrender, Insurance]
    }

    predicate CanAfford(amount: int)
      reads this
    {
      money >= amount
    }

    predicate HasBet()
      reads this
    {
      bet > 0
    }

    predicate IsBusted()
      reads this
      requires Valid()
    {
      HandValue(CurrentHand().cards) > 21
    }

    /** A bet above the player's money is refused with nothing changed; otherwise the money moves into the bet. */
    method PlaceBet(amount: int) returns (r: Result<(), PlayerError>)
      requires Valid()
      modifies this
      ensures Valid() && hands == old(hands) && Ledger() == old(Ledger())
      ensures amount > old(money) ==> (r == Err(InsufficientFunds)
        && money == old(money) && bet == old(bet) && totalBets == old(totalBets) && done == old(done))
      ensures amount <= old(money) ==> (r == Ok(())
        && money == old(money) - amount && bet == amount && totalBets == old(totalBets) + amount && !done)
      ensures insurance == old(insurance) && totalWinnings == old(totalWinnings) && blackjack == old(blackjack)
    {
      if amount > money {
        return Err(InsufficientFunds);
      }
      bet := amount;
      money := money - amount;
      done := false;
      totalBets := totalBets + amount;
      return Ok(());
    }

    /**
     * Splits a pair: the second card of the current hand moves to a new hand
     * at the end of the list and a second stake equal to the bet is paid.
     */
    method DoSplit() returns (r: Result<(), PlayerError>)
      requires Valid()
      modifies this
      ensures Valid() && Ledger() == old(Ledger()) && bet == old(bet)
      ensures !CanSplit(old(CurrentHand())) ==> (r == Err(InvalidAction)
        && hands == old(hands) && money == old(money) && totalBets == old(totalBets))
      ensures CanSplit(old(CurrentHand())) && old(bet) > old(money) ==> (r == Err(InsufficientFunds)
        && hands == old(hands) && money == old(money) && totalBets == old(totalBets))
      ensures CanSplit(old(CurrentHand())) && old(bet) <= old(money) ==> (r == Ok(())
        && money == old(money) - old(bet) && totalBets == old(totalBets) + old(bet)
        && hands == old(hands)[0 := Hand([old(CurrentHand()).cards[0]], old(CurrentHand()).isSplit)]
                    + [Hand([old(CurrentHand()).cards[1]], false)])
      ensures r.Ok? ==> |hands| == old(|hands|) + 1 && |hands[0].cards| == 1 && |hands[|hands| - 1].cards| == 1
      ensures done == old(done) && insurance == old(insurance) && totalWinnings == old(totalWinnings)
      ensures blackjack == old(blackjack)
    {
      if !CanSplit(CurrentHand()) {
        return Err(InvalidAction);
      }
      if bet > money {
        return Err(InsufficientFunds);
      }
      money := money - bet;
      totalBets := totalBets + bet;
      var h := hands[0];
      var moved := h.cards[|h.cards| - 1];
      assert h.cards[..|h.cards| - 1] == [h.cards[0]];
      hands := hands[0 := h.(cards := h.cards[..|h.cards| - 1])] + [Hand([moved], false)];
      return Ok(());
    }

    /** Surrender on two cards: half the bet (rounded down) comes back, the bet is cleared, the turn ends. */
    method DoSurrender() returns (r: Result<(), PlayerError>)
      requires Valid()
      modifies this
      ensures Valid() && hands == old(hands)
      ensures |old(CurrentHand()).cards| != 2 ==> (r == Err(InvalidAction)
        && money == old(money) && bet == old(bet) && done == old(done))
      ensures |old(CurrentHand()).cards| == 2 ==> (r == Ok(())
        && money == old(money) + old(bet) / 2 && bet == 0 && done)
      ensures totalBets == old(totalBets) && totalWinnings == old(totalWinnings)
      ensures insurance == old(insurance) && blackjack == old(blackjack)
    {
      if |CurrentHand().cards| != 2 {
        return Err(InvalidAction);
      }
      money := money + bet / 2;
      bet := 0;
      done := true;
      return Ok(());
    }

    /** Takes a card; the turn ends exactly when the hand goes over 21. */
    method DoHit(c: Card)
      requires Valid()
      modifies this
      ensures Valid() && hands == old(hands)[0 := old(CurrentHand()).(cards := old(CurrentHand()).cards + [c])]
      ensures done == (old(done) || HandValue(CurrentHand().cards) > 21)
      ensures money == old(money) && bet == old(bet) && Ledger() == old(Ledger())
      ensures insurance == old(insurance) && totalBets == old(totalBets)
      ensures totalWinnings == old(totalWinnings) && blackjack == old(blackjack)
    {
      hands := hands[0 := hands[0].(cards := hands[0].cards + [c])];
      if IsBusted() {
        done := true;
      }
    }

    method DoStand()
      modifies this
      ensures done && money == old(money) && bet == old(bet) && hands == old(hands)
      ensures insurance == old(insurance) && totalBets == old(totalBets)
      ensures totalWinnings == old(totalWinnings) && blackjack == old(blackjack)
    {
      done := true;
    }

    /** Doubles the bet, paying the extra stake from money, and ends the turn. */
    method DoubleDown() returns (r: Result<(), PlayerError>)
      requires Valid()
      modifies this
      ensures Valid() && hands == old(hands) && Ledger() == old(Ledger())
      ensures old(bet) <= 0 ==> r == Err(InvalidAction)
      ensures old(bet) > 0 && old(IsBusted()) ==> r == Err(InvalidAction)
      ensures old(bet) > 0 && !old(IsBusted()) && old(bet) > old(money) ==> r == Err(InsufficientFunds)
      ensures r.Err? ==> money == old(money) && bet == old(bet) && totalBets == old(totalBets) && done == old(done)
      ensures old(bet) > 0 && !old(IsBusted()) && old(bet) <= old(money) ==> (r == Ok(())
        && money == old(money) - old(bet) && bet == 2 * old(bet) && totalBets == old(totalBets) + old(bet) && done)
      ensures insurance == old(insurance) && totalWinnings == old(totalWinnings) && blackjack == old(blackjack)
    {
      if !HasBet() {
        return Err(InvalidAction);
      }
      if IsBusted() {
        return Err(InvalidAction);
      }
      if bet > money {
        return Err(InsufficientFunds);
      }
      money := money - bet;
      totalBets := totalBets + bet;
      bet := bet * 2;
      done := true;
      return Ok(());
    }

    method BuyInsurance(amount: int) returns (r: Result<(), PlayerError>)
      modifies this
      ensures amount > old(money) ==> r == Err(InsufficientFunds) && money == old(money) && insurance == old(insurance)
      ensures amount <= old(money) ==> r == Ok(()) && money == old(money) - amount && insurance == amount
      ensures bet == old(bet) && hands == old(hands) && totalBets == old(totalBets)
      ensures done == old(done) && totalWinnings == old(totalWinnings) && blackjack == old(blackjack)
    {
      if amount > money {
        return Err(InsufficientFunds);
      }
      insurance := amount;
      money := money - amount;
      return Ok(());
    }

    /** Credits a payout, which counts as winnings, and closes the player's round. */
    method Payout(amount: int)
      modifies this
      ensures money == old(money) + amount && totalWinnings == old(totalWinnings) + amount
      ensures bet == 0 && insurance == 0 && done && !blackjack
      ensures hands == old(hands) && totalBets == old(totalBets) && Ledger() == old(Ledger())
    {
      money := money + amount;
      totalWinnings := totalWinnings + amount;
      bet := 0;
      insurance := 0;
      done := true;
      blackjack := false;
    }

    method AddCard(c: Card)
      requires Valid()
      modifies this
      ensures Valid() && hands == old(hands)[0 := old(CurrentHand()).(cards := old(CurrentHand()).cards + [c])]
      ensures money == old(money) && bet == old(bet) && done == old(done)
      ensures insurance == old(insurance) && totalBets == old(totalBets)
      ensures totalWinnings == old(totalWinnings) && blackjack == old(blackjack)
    {
      hands := hands[0 := hands[0].(cards := hands[0].cards + [c])];
    }

    /** Back to one empty hand with no bet and cleared totals; money is kept. */
    method Reset()
      modifies this
      ensures Valid() && hands == [Hand([], false)] && !done && !blackjack
      ensures bet == 0 && totalBets == 0 && totalWinnings == 0
      ensures money == old(money) && insurance == old(insurance)
    {
      hands := [Hand([], false)];
      done := false;
      blackjack := false;
      bet := 0;
      totalBets := 0;
      totalWinnings := 0;
    }
  }

  /** Whether a dealer holding `h` draws: below 17, or on a soft 17. */
  predicate DealerShouldHit(h: Hand) {
    HandValue(h.cards) < 17 || (HandValue(h.cards) == 17 && IsSoft(h.cards))
  }

  class Dealer {
    var hands: seq<Hand>

    predicate Valid()
      reads this
    {
      |hands| >= 1
    }

    constructor ()
      ensures Valid() && hands == [Hand([], false)]
    {
      hands := [Hand([], false)];
    }

    function CurrentHand(): Hand
      reads this
      requires Valid()
    {
      hands[0]
    }

    /** Whether the up-card is an ace; an empty hand has no up-card. */
    function HasAce(): (r: Option<bool>)
      reads this
      requires Valid()
      ensures r.None? <==> CurrentHand().cards == []
      ensures r == Some(true) <==> CurrentHand().cards != [] && CurrentHand().cards[0].rank == Ace
    {
      if CurrentHand().cards == [] then None else Some(CurrentHand().cards[0].rank == Ace)
    }

    method AddCard(c: Card)
      requires Valid()
      modifies this
      ensures Valid() && hands == old(hands)[0 := old(CurrentHand()).(cards := old(CurrentHand()).cards + [c])]
    {
      hands := hands[0 := hands[0].(cards := hands[0].cards + [c])];
    }

    method ShouldHit() returns (hit: bool)
      requires Valid()
      ensures hit == DealerShouldHit(CurrentHand())
      ensures hit ==> HandValue(CurrentHand().cards) <= 17
      ensures !hit ==> HandValue(CurrentHand().cards) >= 17
    {
      var v := HandValue(CurrentHand().cards);
      hit := v < 17 || (v == 17 && IsSoft(CurrentHand().cards));
    }

    method Reset()
      modifies this
      ensures Valid() && hands == [Hand([], false)]
    {
      hands := [Hand([], false)];
    }
  }
}
