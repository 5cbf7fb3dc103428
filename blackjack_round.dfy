/**
 * The end-of-round and blackjack-settlement logic of the state-pattern
 * blackjack game: who won each hand, what each hand is paid, which actions a
 * hand may take, and how a dealer or player blackjack is settled.
 *
 * The table's players here keep one bet per hand, a winner entry per hand and
 * a done flag per hand.  Paying a player goes through `payout(hand, amount)`
 * and `payout_insurance(amount)`, whose bodies are not part of this model;
 * the model records each call, in order, in `payments`.
 */
module BlackjackRound {
  import opened Wrappers
  import opened Cards
  import opened BlackjackHands
  import opened BlackjackRules
  import opened Actors

  datatype Winner = PlayerWins | DealerWins | Draw

  /** Who wins a hand worth `p` against a dealer worth `d`. */
  function HandWinner(p: int, d: int): Winner {
    if p > 21 then DealerWins
    else if d > 21 || p > d then PlayerWins
    else if p < d then DealerWins
    else Draw
  }

  /**
   * A busted hand always loses, even to a busted dealer; otherwise a busted
   * dealer loses, and between two standing hands the higher total wins and
   * equal totals draw.  Swapping the two standing totals swaps the winner.
   */
  lemma HandWinnerRules(p: int, d: int)
    ensures p > 21 ==> HandWinner(p, d) == DealerWins
    ensures p <= 21 && d > 21 ==> HandWinner(p, d) == PlayerWins
    ensures p <= 21 && d <= 21 ==>
      (HandWinner(p, d) == PlayerWins <==> p > d) && (HandWinner(p, d) == Draw <==> p == d)
    ensures p <= 21 && d <= 21 ==>
      (HandWinner(p, d) == PlayerWins <==> HandWinner(d, p) == DealerWins)
  {
  }

  /**
   * The dealer's own drawing rule is the table rule with soft-17 hitting
   * switched on; with it switched off the dealer draws on every hand the
   * table rule draws on, and differs only on a soft 17.
   */
  lemma DealerRuleIsHitSoft17(rules: Rules, h: Hand)
    ensures rules.dealerHitSoft17 ==> (DealerShouldHit(h) <==> ShouldDealerHit(rules, h))
    ensures ShouldDealerHit(rules, h) ==> DealerShouldHit(h)
    ensures DealerShouldHit(h) && !ShouldDealerHit(rules, h) <==>
      !rules.dealerHitSoft17 && HandValue(h.cards) == 17 && NumAces(h.cards) > 0 && HandValue(h.cards) == HardTotal(h.cards) + 10
  {
    SoftMeansAceCountsEleven(h.cards);
  }

  /** One call made to pay a player. */
  datatype Payment =
    | HandPayout(player: nat, hand: nat, amount: real)
    | InsurancePayout(player: nat, amount: real)

  /** A seated player as the round handlers see it. */
  datatype TablePlayer = TablePlayer(
    hands: seq<Hand>,
    bets: seq<real>,
    winner: seq<Winner>,
    handDone: seq<bool>,
    currentHandIndex: nat,
    insurance: real,
    blackjack: bool,
    done: bool)

  /** A bet and a done flag for every hand, and a first hand to play. */
  predicate WellFormedPlayer(p: TablePlayer) {
    |p.hands| >= 1 && |p.bets| == |p.hands| && |p.handDone| == |p.hands| && p.currentHandIndex < |p.hands|
  }

  /** One winner entry per hand, in hand order. */
  function WinnersFor(hands: seq<Hand>, dealerValue: int): (w: seq<Winner>)
    ensures |w| == |hands|
    ensures forall j :: 0 <= j < |hands| ==> w[j] == HandWinner(HandValue(hands[j].cards), dealerValue)
  {
    seq(|hands|, j requires 0 <= j < |hands| => HandWinner(HandValue(hands[j].cards), dealerValue))
  }

  /**
   * The amount a hand is paid: nothing for a hand with no bet or a lost hand;
   * a winning hand gets its bet back plus the bet times the blackjack payout
   * if the player has a blackjack, otherwise twice the bet; a draw returns the bet.
   */
  function HandPayoutAmount(bet: real, w: Winner, blackjack: bool, blackjackPayout: real): (r: Option<real>)
    ensures bet == 0.0 || w == DealerWins ==> r == None
    ensures bet != 0.0 && w == Draw ==> r == Some(bet)
    ensures bet != 0.0 && w == PlayerWins && !blackjack ==> r == Some(2.0 * bet)
    ensures bet != 0.0 && w == PlayerWins && blackjack ==> r == Some(bet * (1.0 + blackjackPayout))
  {
    if bet == 0.0 then None
    else match w
      case PlayerWins => Some(if blackjack then bet + bet * blackjackPayout else bet * 2.0)
      case Draw => Some(bet)
      case DealerWins => None
  }

  /** The payout calls for hands `from` onwards of player `pi`. */
  function PaymentsFrom(p: TablePlayer, pi: nat, blackjackPayout: real, from: nat): (ps: seq<Payment>)
    requires from <= |p.hands| <= |p.bets| && |p.hands| <= |p.winner|
    ensures |ps| <= |p.hands| - from
    ensures forall k :: 0 <= k < |ps| ==> ps[k].HandPayout? && ps[k].player == pi && from <= ps[k].hand < |p.hands|
    decreases |p.hands| - from
  {
    if from == |p.hands| then []
    else
      var rest := PaymentsFrom(p, pi, blackjackPayout, from + 1);
      match HandPayoutAmount(p.bets[from], p.winner[from], p.blackjack, blackjackPayout)
      case None => rest
      case Some(a) => [HandPayout(pi, from, a)] + rest
  }

  /** The bets after settlement: a lost hand's bet with a stake is cleared, every other bet stays. */
  function SettledBets(p: TablePlayer): (b: seq<real>)
    requires |p.hands| <= |p.bets| && |p.hands| <= |p.winner|
    ensures |b| == |p.bets|
    ensures forall j :: 0 <= j < |p.bets| ==>
      b[j] == if j < |p.hands| && p.bets[j] != 0.0 && p.winner[j] == DealerWins then 0.0 else p.bets[j]
  {
    seq(|p.bets|, j requires 0 <= j < |p.bets| =>
      if j < |p.hands| && p.bets[j] != 0.0 && p.winner[j] == DealerWins then 0.0 else p.bets[j])
  }

  /** Every payment is at least the stake it settles when bets and the blackjack payout are non-negative. */
  lemma {:induction false} PaymentsReturnStake(p: TablePlayer, pi: nat, bjp: real, from: nat, k: nat)
    requires from <= |p.hands| <= |p.bets| && |p.hands| <= |p.winner|
    requires bjp >= 0.0 && forall j :: 0 <= j < |p.bets| ==> p.bets[j] >= 0.0
    requires k < |PaymentsFrom(p, pi, bjp, from)|
    ensures PaymentsFrom(p, pi, bjp, from)[k].amount >= p.bets[PaymentsFrom(p, pi, bjp, from)[k].hand]
    decreases |p.hands| - from
  {
    var rest := PaymentsFrom(p, pi, bjp, from + 1);
    var bet := p.bets[from];
    match HandPayoutAmount(bet, p.winner[from], p.blackjack, bjp)
    case None =>
      PaymentsReturnStake(p, pi, bjp, from + 1, k);
    case Some(a) =>
      if k > 0 {
        PaymentsReturnStake(p, pi, bjp, from + 1, k - 1);
      } else {
        PayoutCoversBet(bet, p.winner[from], p.blackjack, bjp);
      }
  }

  lemma PayoutCoversBet(bet: real, w: Winner, blackjack: bool, bjp: real)
    requires bet >= 0.0 && bjp >= 0.0
    ensures var r := HandPayoutAmount(bet, w, blackjack, bjp); r.Some? ==> r.value >= bet
  {
    assert bet * bjp >= 0.0;
  }

  /** The actions offered for hand `hi`: always hit and stand; on two cards, double, split and surrender as the table allows. */
  function GetValidActions(rules: Rules, p: TablePlayer, hi: nat): (acts: seq<Action>)
    requires hi < |p.hands|
    ensures |acts| >= 2 && acts[0] == Hit && acts[1] == Stand
    ensures Double in acts <==>
      |p.hands[hi].cards| == 2 && RulesCanDoubleDown(rules, p.hands[hi]) && (hi == 0 || rules.allowDoubleAfterSplit)
    ensures Split in acts <==> |p.hands[hi].cards| == 2 && RulesCanSplit(rules, p.hands[hi]) && |p.hands| < 4
    ensures Surrender in acts <==> |p.hands[hi].cards| == 2 && RulesCanSurrender(rules, p.hands[hi])
    ensures Insurance !in acts
    ensures |p.hands[hi].cards| != 2 ==> acts == [Hit, Stand]
  {
    var h := p.hands[hi];
    if |h.cards| != 2 then [Hit, Stand]
    else
      var d := if RulesCanDoubleDown(rules, h) && (hi == 0 || rules.allowDoubleAfterSplit) then [Double] else [];
      var s := if RulesCanSplit(rules, h) && |p.hands| < 4 then [Split] else [];
      var r := if RulesCanSurrender(rules, h) then [Surrender] else [];
      [Hit, Stand] + d + s + r
  }

  /** The bets and payout calls settling one player's hands, hand by hand. */
  method SettleHands(p: TablePlayer, pi: nat, blackjackPayout: real) returns (bets: seq<real>, paid: seq<Payment>)
    requires |p.hands| <= |p.bets| && |p.hands| <= |p.winner|
    ensures bets == SettledBets(p)
    ensures paid == PaymentsFrom(p, pi, blackjackPayout, 0)
  {
    bets := p.bets;
    paid := [];
    var j := 0;
    while j < |p.hands|
      invariant 0 <= j <= |p.hands| && |bets| == |p.bets|
      invariant paid + PaymentsFrom(p, pi, blackjackPayout, j) == PaymentsFrom(p, pi, blackjackPayout, 0)
      invariant forall k :: 0 <= k < |bets| ==> bets[k] == (if k < j then SettledBets(p)[k] else p.bets[k])
    {
      var amount := HandPayoutAmount(p.bets[j], p.winner[j], p.blackjack, blackjackPayout);
      if amount.Some? {
        assert PaymentsFrom(p, pi, blackjackPayout, j) == [HandPayout(pi, j, amount.value)] + PaymentsFrom(p, pi, blackjackPayout, j + 1);
        paid := paid + [HandPayout(pi, j, amount.value)];
      } else if p.bets[j] != 0.0 {
        bets := bets[j := 0.0];
      }
      j := j + 1;
    }
  }

  /** Winners for each hand of one player, hand by hand. */
  method HandWinners(hands: seq<Hand>, dealerValue: int) returns (w: seq<Winner>)
    ensures w == WinnersFor(hands, dealerValue)
  {
    w := [];
    var j := 0;
    while j < |hands|
      invariant 0 <= j <= |hands|
      invariant w == WinnersFor(hands, dealerValue)[..j]
    {
      w := w + [HandWinner(HandValue(hands[j].cards), dealerValue)];
      j := j + 1;
    }
  }

  /** Insurance left on the table after the dealer's peek: a positive stake is settled and cleared. */
  function ClearInsurance(p: TablePlayer): (q: TablePlayer)
    ensures q.insurance <= 0.0 || q.insurance == p.insurance
    ensures q == p.(insurance := q.insurance)
  {
    if p.insurance > 0.0 then p.(insurance := 0.0) else p
  }

  /** Every player's winner list set, one entry per hand. */
  method AssignWinners(ps: seq<TablePlayer>, dealerValue: int) returns (qs: seq<TablePlayer>)
    ensures |qs| == |ps|
    ensures forall i :: 0 <= i < |ps| ==> qs[i] == ps[i].(winner := WinnersFor(ps[i].hands, dealerValue))
  {
    qs := ps;
    var i := 0;
    while i < |ps|
      invariant 0 <= i <= |ps| == |qs|
      invariant forall k :: 0 <= k < i ==> qs[k] == ps[k].(winner := WinnersFor(ps[k].hands, dealerValue))
      invariant forall k :: i <= k < |ps| ==> qs[k] == ps[k]
    {
      var w := HandWinners(ps[i].hands, dealerValue);
      qs := qs[i := ps[i].(winner := w)];
      i := i + 1;
    }
  }

  /** Every player's hands settled, with the payout calls in player then hand order. */
  method SettleAllHands(ps: seq<TablePlayer>, blackjackPayout: real) returns (qs: seq<TablePlayer>, paid: seq<Payment>)
    requires forall i :: 0 <= i < |ps| ==> |ps[i].hands| <= |ps[i].bets| && |ps[i].hands| <= |ps[i].winner|
    ensures |qs| == |ps|
    ensures forall i :: 0 <= i < |ps| ==> qs[i] == ps[i].(bets := SettledBets(ps[i]))
    ensures paid == AllPayments(ps, blackjackPayout, |ps|)
  {
    qs := ps;
    paid := [];
    var i := 0;
    while i < |ps|
      invariant 0 <= i <= |ps| == |qs|
      invariant forall k :: 0 <= k < i ==> qs[k] == ps[k].(bets := SettledBets(ps[k]))
      invariant forall k :: i <= k < |ps| ==> qs[k] == ps[k]
      invariant paid == AllPayments(ps, blackjackPayout, i)
    {
      var bets, more := SettleHands(ps[i], i, blackjackPayout);
      paid := paid + more;
      qs := qs[i := ps[i].(bets := bets)];
      i := i + 1;
    }
  }

  /** Every positive insurance stake cleared, with the three-times payout calls when `pay` holds. */
  method SettleInsurance(ps: seq<TablePlayer>, pay: bool) returns (qs: seq<TablePlayer>, paid: seq<Payment>)
    ensures |qs| == |ps|
    ensures forall i :: 0 <= i < |ps| ==> qs[i] == ClearInsurance(ps[i])
    ensures paid == if pay then InsurancePayments(ps, |ps|) else []
  {
    qs := ps;
    paid := [];
    var i := 0;
    while i < |ps|
      invariant 0 <= i <= |ps| == |qs|
      invariant forall k :: 0 <= k < i ==> qs[k] == ClearInsurance(ps[k])
      invariant forall k :: i <= k < |ps| ==> qs[k] == ps[k]
      invariant paid == if pay then InsurancePayments(ps, i) else []
    {
      if ps[i].insurance > 0.0 {
        if pay {
          paid := paid + [InsurancePayout(i, ps[i].insurance * 3.0)];
        }
        qs := qs[i := ps[i].(insurance := 0.0)];
      }
      i := i + 1;
    }
  }

  /** Every player settled against a dealer blackjack, with the push payout calls. */
  method SettleAgainstDealerBlackjack(ps: seq<TablePlayer>) returns (qs: seq<TablePlayer>, paid: seq<Payment>)
    requires forall i :: 0 <= i < |ps| ==> |ps[i].hands| >= 1 && |ps[i].bets| >= 1
    ensures |qs| == |ps|
    ensures forall i :: 0 <= i < |ps| ==> qs[i] == ps[i].(winner := if IsBlackjack(ps[i].hands[0]) then [Draw] else [DealerWins])
    ensures paid == PushPayments(ps, |ps|)
  {
    qs := ps;
    paid := [];
    var i := 0;
    while i < |ps|
      invariant 0 <= i <= |ps| == |qs|
      invariant forall k :: 0 <= k < i ==> qs[k] == ps[k].(winner := if IsBlackjack(ps[k].hands[0]) then [Draw] else [DealerWins])
      invariant forall k :: i <= k < |ps| ==> qs[k] == ps[k]
      invariant paid == PushPayments(ps, i)
    {
      if IsBlackjack(ps[i].hands[0]) {
        paid := paid + [HandPayout(i, 0, ps[i].bets[0])];
        qs := qs[i := ps[i].(winner := [Draw])];
      } else {
        qs := qs[i := ps[i].(winner := [DealerWins])];
      }
      i := i + 1;
    }
  }

  /** Every player's blackjack paid and finished, with the payout calls. */
  method PayPlayerBlackjacks(ps: seq<TablePlayer>, blackjackPayout: real) returns (qs: seq<TablePlayer>, paid: seq<Payment>)
    requires forall i :: 0 <= i < |ps| ==> |ps[i].hands| >= 1 && |ps[i].bets| >= 1
    requires forall i :: 0 <= i < |ps| ==> ps[i].currentHandIndex < |ps[i].handDone|
    ensures |qs| == |ps|
    ensures forall i :: 0 <= i < |ps| ==> qs[i] == PlayerBlackjackWins(ps[i])
    ensures paid == BlackjackPayments(ps, blackjackPayout, |ps|)
  {
    qs := ps;
    paid := [];
    var i := 0;
    while i < |ps|
      invariant 0 <= i <= |ps| == |qs|
      invariant forall k :: 0 <= k < i ==> qs[k] == PlayerBlackjackWins(ps[k])
      invariant forall k :: i <= k < |ps| ==> qs[k] == ps[k]
      invariant paid == BlackjackPayments(ps, blackjackPayout, i)
    {
      var p := ps[i];
      if IsBlackjack(p.hands[0]) {
        var amount := p.bets[0] * (1.0 + blackjackPayout);
        BlackjackPaymentsStep(ps, blackjackPayout, i);
        assert amount == ps[i].bets[0] * (1.0 + blackjackPayout);
        paid := paid + [HandPayout(i, 0, amount)];
        assert paid == BlackjackPayments(ps, blackjackPayout, i + 1);
        qs := qs[i := p.(blackjack := true, winner := [PlayerWins], handDone := p.handDone[p.currentHandIndex := true])];
      } else {
        assert BlackjackPayments(ps, blackjackPayout, i + 1) == BlackjackPayments(ps, blackjackPayout, i) + [];
        assert BlackjackPayments(ps, blackjackPayout, i) + [] == BlackjackPayments(ps, blackjackPayout, i);
      }
      i := i + 1;
    }
  }

  /** A player whose first hand is a blackjack is marked, wins, and has the current hand finished. */
  function PlayerBlackjackWins(p: TablePlayer): (q: TablePlayer)
    requires |p.hands| >= 1 && p.currentHandIndex < |p.handDone|
    ensures |q.handDone| == |p.handDone| && q.hands == p.hands && q.bets == p.bets && q.insurance == p.insurance
    ensures IsBlackjack(p.hands[0]) ==> q.blackjack && q.winner == [PlayerWins] && q.handDone[p.currentHandIndex]
    ensures forall k :: 0 <= k < |p.handDone| && k != p.currentHandIndex ==> q.handDone[k] == p.handDone[k]
    ensures !IsBlackjack(p.hands[0]) ==> q == p
  {
    if IsBlackjack(p.hands[0])
    then p.(blackjack := true, winner := [PlayerWins], handDone := p.handDone[p.currentHandIndex := true])
    else p
  }

  class Round {
    var players: seq<TablePlayer>
    var dealerHand: Hand
    var payments: seq<Payment>

    /** Sets each player's winner list: one entry per hand, in hand order. */
    method CalculateWinner()
      modifies this
      ensures dealerHand == old(dealerHand) && payments == old(payments) && |players| == old(|players|)
      ensures forall i :: 0 <= i < |players| ==>
        players[i] == old(players[i]).(winner := WinnersFor(old(players[i]).hands, HandValue(dealerHand.cards)))
    {
      players := AssignWinners(players, HandValue(dealerHand.cards));
    }

    /**
     * Settles every hand: a winning or drawn hand with a stake is paid, a lost
     * hand's stake is cleared, a hand without a stake is skipped.
     */
    method HandlePayouts(blackjackPayout: real)
      requires forall i :: 0 <= i < |players| ==>
        |players[i].hands| <= |players[i].bets| && |players[i].hands| <= |players[i].winner|
      modifies this
      ensures dealerHand == old(dealerHand) && |players| == old(|players|)
      ensures forall i :: 0 <= i < |players| ==> players[i] == old(players[i]).(bets := SettledBets(old(players[i])))
      ensures payments == old(payments) + AllPayments(old(players), blackjackPayout, |players|)
    {
      var paid;
      players, paid := SettleAllHands(players, blackjackPayout);
      payments := payments + paid;
    }

    /**
     * The dealer has a blackjack: each positive insurance stake is paid three
     * times over and cleared; then a player whose first hand is a blackjack
     * gets the first bet back as a draw, and every other player loses.
     */
    method SettleDealerBlackjack()
      requires forall i :: 0 <= i < |players| ==> |players[i].hands| >= 1 && |players[i].bets| >= 1
      modifies this
      ensures dealerHand == old(dealerHand) && |players| == old(|players|)
      ensures forall i :: 0 <= i < |players| ==>
        players[i] == ClearInsurance(old(players[i])).(winner := if IsBlackjack(old(players[i]).hands[0]) then [Draw] else [DealerWins])
      ensures payments == old(payments) + InsurancePayments(old(players), |players|) + PushPayments(old(players), |players|)
    {
      var ins, pushes;
      var cleared;
      cleared, ins := SettleInsurance(players, true);
      assert forall i :: 0 <= i < |players| ==> cleared[i].hands == players[i].hands && cleared[i].bets == players[i].bets;
      assert PushPayments(cleared, |cleared|) == PushPayments(players, |players|) by {
        PushPaymentsIgnoreInsurance(players, cleared, |players|);
      }
      players, pushes := SettleAgainstDealerBlackjack(cleared);
      payments := payments + ins + pushes;
    }

    /**
     * The dealer has no blackjack: every positive insurance stake is lost and
     * cleared; then each player whose first hand is a blackjack is paid the
     * first bet plus the bet times the blackjack payout, and that hand is done.
     */
    method SettlePlayerBlackjacks(blackjackPayout: real)
      requires forall i :: 0 <= i < |players| ==> |players[i].hands| >= 1 && |players[i].bets| >= 1
      requires forall i :: 0 <= i < |players| ==> players[i].currentHandIndex < |players[i].handDone|
      modifies this
      ensures dealerHand == old(dealerHand) && |players| == old(|players|)
      ensures forall i :: 0 <= i < |players| ==> players[i] == PlayerBlackjackWins(ClearInsurance(old(players[i])))
      ensures payments == old(payments) + BlackjackPayments(old(players), blackjackPayout, |players|)
    {
      var cleared, none := SettleInsurance(players, false);
      assert BlackjackPayments(cleared, blackjackPayout, |cleared|) == BlackjackPayments(players, blackjackPayout, |players|) by {
        BlackjackPaymentsIgnoreInsurance(players, cleared, blackjackPayout, |players|);
      }
      var paid;
      players, paid := PayPlayerBlackjacks(cleared, blackjackPayout);
      payments := payments + paid;
    }
  }

  lemma BlackjackPaymentsStep(ps: seq<TablePlayer>, bjp: real, i: nat)
    requires i < |ps|
    requires forall k :: 0 <= k < |ps| ==> |ps[k].hands| >= 1 && |ps[k].bets| >= 1
    requires IsBlackjack(ps[i].hands[0])
    ensures BlackjackPayments(ps, bjp, i + 1) == BlackjackPayments(ps, bjp, i) + [HandPayout(i, 0, ps[i].bets[0] * (1.0 + bjp))]
  {
  }

  /** Push payments depend only on hands and bets. */
  lemma {:induction false} PushPaymentsIgnoreInsurance(ps: seq<TablePlayer>, qs: seq<TablePlayer>, n: nat)
    requires n <= |ps| == |qs|
    requires forall i :: 0 <= i < |ps| ==> |ps[i].hands| >= 1 && |ps[i].bets| >= 1
    requires forall i :: 0 <= i < |ps| ==> qs[i].hands == ps[i].hands && qs[i].bets == ps[i].bets
    ensures PushPayments(qs, n) == PushPayments(ps, n)
  {
    if n > 0 {
      PushPaymentsIgnoreInsurance(ps, qs, n - 1);
    }
  }

  /** Blackjack payments depend only on hands and bets. */
  lemma {:induction false} BlackjackPaymentsIgnoreInsurance(ps: seq<TablePlayer>, qs: seq<TablePlayer>, bjp: real, n: nat)
    requires n <= |ps| == |qs|
    requires forall i :: 0 <= i < |ps| ==> |ps[i].hands| >= 1 && |ps[i].bets| >= 1
    requires forall i :: 0 <= i < |ps| ==> qs[i].hands == ps[i].hands && qs[i].bets == ps[i].bets
    ensures BlackjackPayments(qs, bjp, n) == BlackjackPayments(ps, bjp, n)
  {
    if n > 0 {
      BlackjackPaymentsIgnoreInsurance(ps, qs, bjp, n - 1);
      assert qs[n - 1].hands == ps[n - 1].hands && qs[n - 1].bets == ps[n - 1].bets;
      assert qs[n - 1].bets[0] * (1.0 + bjp) == ps[n - 1].bets[0] * (1.0 + bjp);
    }
  }

  /** The hand payout calls for the first `n` players, player by player. */
  function AllPayments(ps: seq<TablePlayer>, bjp: real, n: nat): seq<Payment>
    requires n <= |ps|
    requires forall i :: 0 <= i < |ps| ==> |ps[i].hands| <= |ps[i].bets| && |ps[i].hands| <= |ps[i].winner|
  {
    if n == 0 then [] else AllPayments(ps, bjp, n - 1) + PaymentsFrom(ps[n - 1], n - 1, bjp, 0)
  }

  /** Three times each positive insurance stake, for the first `n` players. */
  function InsurancePayments(ps: seq<TablePlayer>, n: nat): seq<Payment>
    requires n <= |ps|
  {
    if n == 0 then []
    else (InsurancePayments(ps, n - 1)
      + (if ps[n - 1].insurance > 0.0 then [InsurancePayout(n - 1, ps[n - 1].insurance * 3.0)] else []))
  }

  /** The first bet back for each of the first `n` players whose first hand is a blackjack. */
  function PushPayments(ps: seq<TablePlayer>, n: nat): seq<Payment>
    requires n <= |ps|
    requires forall i :: 0 <= i < |ps| ==> |ps[i].hands| >= 1 && |ps[i].bets| >= 1
  {
    if n == 0 then []
    else (PushPayments(ps, n - 1)
      + (if IsBlackjack(ps[n - 1].hands[0]) then [HandPayout(n - 1, 0, ps[n - 1].bets[0])] else []))
  }

  /** The blackjack payouts for each of the first `n` players whose first hand is a blackjack. */
  function BlackjackPayments(ps: seq<TablePlayer>, bjp: real, n: nat): seq<Payment>
    requires n <= |ps|
    requires forall i :: 0 <= i < |ps| ==> |ps[i].hands| >= 1 && |ps[i].bets| >= 1
  {
    if n == 0 then []
    else (BlackjackPayments(ps, bjp, n - 1)
      + (if IsBlackjack(ps[n - 1].hands[0]) then [HandPayout(n - 1, 0, ps[n - 1].bets[0] * (1.0 + bjp))] else []))
  }
}
