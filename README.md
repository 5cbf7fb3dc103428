# A verified model of the cardsharp rule engines

cardsharp is a Python library of card games. This project models its
deterministic rule engines in Dafny and proves what they promise:

- **Cards, deck and shoe** (`cards.dfy`, `deck.dfy`, `shoe.dfy`):
  - the `Card` value object and rank values, where Jack, Queen and King alias Ten as Python's enum makes them;
  - the 52-card `Deck` class, which deals from the end of its list and is shuffled by Fisher-Yates;
  - the multi-deck `Shoe` class, which keeps every card either in the shoe or among the dealt cards and reshuffles at its penetration point.
- **Blackjack**:
  - hand value, soft and blackjack tests (`blackjack_hand.dfy`);
  - table rules (`blackjack_rules.dfy`);
  - the mutable `Player` with its money and bet bookkeeping, and the dealer (`blackjack_actor.dfy`);
  - end-of-round winners, payouts and insurance (`blackjack_round.dfy`);
  - the immutable-snapshot state machine: `state_models.dfy` for the snapshots, `state_transitions.dfy` for the transitions;
  - the classic and Spanish 21 variants (`variant_classic.dfy`, `variant_spanish21.dfy`).
- **Test-case notation**:
  - cards, card lists and action strings, with their round trips (`notation.dfy`);
  - the test-case text format and the test suite (`notation_testcase.dfy`);
  - the line-oriented test file parser (`test_parser.dfy`).
- **Durak**:
  - the table and player snapshots (`durak_state.dfy`);
  - ending a round, refilling hands and rotating roles (`durak_round.dfy`);
  - dealing, attacks, defences, throw-ins, taking, passing and passing to another player (`durak_transitions.dfy`).
- **War** (`war.dfy`): card comparison, wars, streaks and resets.
- **Baccarat** (`baccarat_hand.dfy`, `baccarat_rules.dfy`, `baccarat_game.dfy`): hand values, the third-card drawing table, outcomes, payouts and round counters.
- **Dragon Tiger** (`dragon_tiger.dfy`): card values, outcomes, payouts and round counters.
- **Casino table occupancy** (`casino.dfy`): the bounded player counter of `TableConditions`.

`wrappers.dfy`, `text.dfy` and `seqs.dfy` hold shared helpers:
- `Option` and `Result`;
- the Python string operations the parsers use: `strip`, `split`, `join`, `find` and `int()`;
- sequence helpers.

How the code is written decides how it is modelled:
- Objects whose fields are updated in place are Dafny classes. These are `Deck`, `Shoe`, `Player`, `BlackjackHand`, `TestSuite`, `TestCaseParser`, `BaccaratHand`, `BaccaratGame`, `DragonTigerGame` and `TableConditions`.
- Snapshot state machines are functions on datatypes.
- Loops are methods proved equal to those functions.

Where the source computes something wrong (see Findings below), the model keeps a definition of the code as written beside the corrected one. The operations that read such a value use the corrected definition, and the Left out section names each of them.

Randomness is a parameter `rng: nat -> nat` that drives the Fisher-Yates swaps in the same order as Python's `random.shuffle`.

## Model

| member | source | states |
|---|---|---|
| Cards.RankValue | cardsharp/common/card.py:36-60 | A rank's value is at most 10; 0 exactly for the joker, 1 exactly for the ace, 10 exactly for the ten-valued rank (Jack, Queen and King being aliases of Ten) |
| Cards.RankValueInjective | cardsharp/common/card.py:36-54 | Two ranks are the same enumeration member exactly when their declared values agree |
| Cards.RankText | cardsharp/common/card.py:62-68 | `rank_str`: only the joker gets a word; the ten-valued rank is written "T"; the ace is written "1" |
| Cards.RankTextInjective | cardsharp/common/card.py:62-68 | Distinct ranks are written differently |
| Cards.NewCard | cardsharp/common/card.py:88-107 | A joker always gets no suit whatever suit is passed; any other rank without a suit is an invalid suit, a missing rank with a suit is an invalid rank; otherwise the card holds the suit and rank given |
| Cards.NewCardWellFormed | cardsharp/common/card.py:88-107 | Every card the constructor builds is a suitless joker or a suited non-joker |
| Cards.SuitCode | cardsharp/common/card.py:120-121 | The suit's index in the hashed key is below 5 and 0 exactly for no suit |
| Cards.HashKey | cardsharp/common/card.py:120-121 | The model's stand-in for Python's hash of the pair (suit, rank): an injective packing of the pair, always below 55 (`HashAgreesWithEquality` proves equal keys mean equal cards) |
| Cards.HashAgreesWithEquality | cardsharp/common/card.py:109-121 | Card equality (same rank, same suit) holds exactly when the hash keys agree, and exactly when the value objects are equal |
| Decks.SuitCards | cardsharp/common/deck.py:25-43 | Each suit contributes 13 cards, one per rank entry in the declared order (Jack, Queen and King each adding another ten-valued card) |
| Decks.DefaultDeck | cardsharp/common/deck.py:25-43 | The default deck holds 52 cards |
| Decks.DefaultDeckLayout | cardsharp/common/deck.py:25-43 | Card `i` of the default deck has suit `i / 13` and rank entry `i % 13`: four suits of thirteen |
| Decks.DefaultDeckWellFormed | cardsharp/common/deck.py:25-43 | The default deck holds no joker and only well-formed cards |
| Decks.ShuffleDown | cardsharp/common/deck.py:71-81 | The swap loop of `random.shuffle` keeps the length and leaves the part it has not reached untouched |
| Decks.Shuffled | cardsharp/common/deck.py:71-81 | Shuffling keeps the number of cards |
| Decks.ShuffleDownPermutes | cardsharp/common/deck.py:71-81 | Every stage of the swap loop is a permutation of the input |
| Decks.ShuffledPermutes | cardsharp/common/deck.py:71-81 | Shuffling is a permutation: the multiset of cards is unchanged |
| Decks.ShuffleInPlace | cardsharp/common/deck.py:71-81 | The in-place swap loop computes `Shuffled` and permutes the cards |
| Decks.Deck.constructor | cardsharp/common/deck.py:45-58 | A deck built without cards holds the default 52; otherwise a copy of the given list |
| Decks.Deck.Size | cardsharp/common/deck.py:97-107 | `size` is the number of cards left |
| Decks.Deck.IsEmpty | cardsharp/common/deck.py:109-115 | The deck is empty exactly when its size is 0 |
| Decks.Deck.Shuffle | cardsharp/common/deck.py:71-81 | Shuffling in place replaces the cards by `Shuffled` of the old ones, the same multiset |
| Decks.Deck.Reset | cardsharp/common/deck.py:117-121 | `reset` restores the 52-card default deck |
| Decks.Deck.Deal | cardsharp/common/deck.py:83-95 | `deal(1)` pops and returns the last card; `deal(n)` pops n cards from the end and returns them in popping order, size dropping by n; n <= 0 returns nothing; popping an empty list is an error raised with the deck emptied; no card is lost or made |
| Shoes.FullShoe | cardsharp/common/shoe.py:25-31 | `num_decks` default decks laid end to end hold 52 per deck |
| Shoes.ReshufflePoint | cardsharp/common/shoe.py:38 | `int(len * (1 - penetration))` lies between 0 and the number of cards, below it for a non-empty shoe, and is 0 at full penetration |
| Shoes.ReshuffleBounds | cardsharp/common/shoe.py:38 | The real product the reshuffle point truncates lies in [0, len], strictly below len when the shoe is not empty |
| Shoes.Shoe.Create | cardsharp/common/shoe.py:6-23 | Fewer than one deck and a penetration outside (0, 1] are rejected, in that order; otherwise the shoe holds the shuffled 52 * num_decks cards, none dealt, with the reshuffle point set from the penetration |
| Shoes.Shoe.constructor | cardsharp/common/shoe.py:18-22 | The fields start with the given deck count and penetration, no cards, no dealt cards and reshuffle point 0 |
| Shoes.Shoe.InitializeShoe | cardsharp/common/shoe.py:25-31 | The shoe is filled with `num_decks` default decks and shuffled, keeping the conservation invariant |
| Shoes.Shoe.Shuffle | cardsharp/common/shoe.py:33-38 | The dealt cards are gathered back and everything shuffled; nothing is dealt afterwards; the reshuffle point is recomputed from the new count; the multiset of all cards is unchanged |
| Shoes.Shoe.CardsRemaining | cardsharp/common/shoe.py:62-64 | `cards_remaining` is the number of undealt cards |
| Shoes.Shoe.Deal | cardsharp/common/shoe.py:40-60 | Asking for more than remain fails before any reshuffle and changes nothing; otherwise the shoe reshuffles first exactly when no more than the reshuffle point remain, then pops n cards from the end into the dealt pile, returning one card bare and any other count as a list; the conservation invariant is kept |
| Shoes.Shoe.ReshuffleIfDue | cardsharp/common/shoe.py:50-51 | The reshuffle happens exactly when the remaining cards are at or below the reshuffle point |
| Shoes.Shoe.PopCards | cardsharp/common/shoe.py:53-58 | Popping n cards takes them from the end, appends them in popping order to the dealt pile and loses none |
| Shoes.FullShoeCards | cardsharp/common/shoe.py:25-31 | A shoe holds no joker and only well-formed cards |
| Shoes.ShoeSizeConserved | cardsharp/common/shoe.py:33-58 | While the cards and dealt cards together are the full shoe, their sizes add up to 52 * num_decks |
| BlackjackHands.NumAces | cardsharp/blackjack/hand.py:77-80 | The ace count never exceeds the number of cards |
| BlackjackHands.NonAceValue | cardsharp/blackjack/hand.py:82-85 | The non-ace sum is at most 10 per non-ace card |
| BlackjackHands.HandValueIsBestTotal | cardsharp/blackjack/hand.py:87-104 | The value (as corrected, see Findings) is the all-aces-as-one total or that plus 10 with an ace present; it is the largest such total not over 21 whenever one exists; it busts exactly when the hard total does |
| BlackjackHands.AsWrittenOnlyOvercounts | cardsharp/blackjack/hand.py:96-101 | The value as written either agrees with the corrected one or adds 10 too many and busts |
| BlackjackHands.AsWrittenBustsAceFiveSix | cardsharp/blackjack/hand.py:96-101 | As written, ace, five, six is worth 22 where the best total is 12 |
| BlackjackHands.AsWrittenAgreesOnTwoCards | cardsharp/blackjack/hand.py:96-101 | On hands of at most two cards the value as written is the correct one |
| BlackjackHands.TwoCardCounts | cardsharp/blackjack/hand.py:77-85 | For two cards the ace count and the non-ace sum are read off the two ranks |
| BlackjackHands.SoftMeansAceCountsEleven | cardsharp/blackjack/hand.py:106-112 | A hand is soft (as corrected) exactly when it holds an ace that is counted as 11, and a soft hand never busts |
| BlackjackHands.SoftAsWrittenDiffers | cardsharp/blackjack/hand.py:112 | As written, ace, ace, ten counts as soft though no ace can be 11; with exactly one ace the written test and the corrected one agree |
| BlackjackHands.BlackjackIsAceAndTen | cardsharp/blackjack/hand.py:114-121 | A two-card hand is a blackjack exactly when it is not a split hand and holds an ace and a ten-valued card |
| BlackjackHands.RemoveFirst | cardsharp/common/hand.py:44-57 | `list.remove` drops exactly one occurrence of the card: one card shorter, the multiset less that card |
| BlackjackHands.BlackjackHand.constructor | cardsharp/blackjack/hand.py:45-56 | A new hand holds no cards, no cached value and the given split flag |
| BlackjackHands.BlackjackHand.AddCard | cardsharp/blackjack/hand.py:67-70 | Adding a card appends it and drops the cached value |
| BlackjackHands.BlackjackHand.RemoveCard | cardsharp/blackjack/hand.py:72-75 | Removing a held card drops its first occurrence and the cache; removing a card not held is an error that changes nothing |
| BlackjackHands.BlackjackHand.Value | cardsharp/blackjack/hand.py:87-104 | The value returned, cached or fresh, always equals the value as the source computes it (`HandValueAsWritten`, see Findings) on the cards held, and is cached afterwards |
| BlackjackRules.DealerDrawingRule | cardsharp/blackjack/rules.py:95-99 | The dealer hits on 16 or less, stands on 18 or more, and on 17 hits exactly when hitting soft 17 is on and an ace counts 11 |
| BlackjackRules.RulesBlackjackIgnoresSplit | cardsharp/blackjack/rules.py:101-103 | The rules' blackjack test is the hand's own test with the split flag ignored: the same on unsplit hands, and true on a split ace-ten where the hand's test is false |
| BlackjackRules.LegalityIsGatedHandTest | cardsharp/blackjack/rules.py:105-164 | Split, double down and surrender are each allowed exactly when their rule flag is set and the hand passes the two-card (and, for splitting, equal-rank) test; resplitting is the split test under the resplitting flag |
| BlackjackRules.CanInsureAsWrittenNeverOffers | cardsharp/blackjack/rules.py:133-150 | As written insurance is never offered (a rank is compared with the string "A"), and an empty dealer hand raises when insurance is allowed; the intended test offers it on an ace up under the default rules |
| Actors.Player.constructor | cardsharp/blackjack/actor.py:46-66 | A new player holds the initial money, one empty hand, no bet, insurance, stakes or winnings, and is neither done nor on a blackjack |
| Actors.Player.ValidActions | cardsharp/blackjack/actor.py:69-92 | No action once done or without cards; hit or stand on one card; every action on two or more cards (both branches of the split test list all six) |
| Actors.Player.PlaceBet | cardsharp/blackjack/actor.py:176-187 | A bet above the money is refused with nothing changed; otherwise the money moves into the bet, the stake total grows by the amount and the turn reopens; money plus stakes minus winnings is unchanged |
| Actors.Player.DoSplit | cardsharp/blackjack/actor.py:106-121 | Splitting needs a splittable current hand, then enough money for a second stake; it pays the bet again and moves the second card to a new hand at the end, leaving one card in each; refusals change nothing; `done`, `insurance`, `total_winnings` and `blackjack` never change |
| Actors.Player.DoSurrender | cardsharp/blackjack/actor.py:123-129 | Only with two cards: half the bet, rounded down, comes back, the bet is cleared and the turn ends; otherwise refused with nothing changed; the hands, `insurance`, the totals and `blackjack` never change |
| Actors.Player.DoHit | cardsharp/blackjack/actor.py:131-135 | The card is added to the current hand, and the turn ends exactly when the new value exceeds 21 (or it had ended already); money, bet, insurance, the totals and `blackjack` are unchanged |
| Actors.Player.DoStand | cardsharp/blackjack/actor.py:137-139 | Standing ends the turn; money, bet, hands, insurance, the totals and `blackjack` are unchanged |
| Actors.Player.DoubleDown | cardsharp/blackjack/actor.py:141-160 | Refused without a bet, after busting, or without money for a second stake, in that order, changing nothing; otherwise the bet doubles, the money pays the extra stake and the turn ends; the hands, `insurance`, `total_winnings` and `blackjack` never change |
| Actors.Player.BuyInsurance | cardsharp/blackjack/actor.py:189-197 | Insurance above the money is refused with money and insurance unchanged; otherwise the money pays the insurance stake; bet, hands, `done`, the totals and `blackjack` never change |
| Actors.Player.Payout | cardsharp/blackjack/actor.py:199-206 | A payout adds the amount to the money and the winnings, clears bet and insurance, ends the turn and the blackjack flag |
| Actors.Player.AddCard | cardsharp/blackjack/actor.py:208-210 | The card is appended to the current hand; money, bet, `done`, insurance, the totals and `blackjack` are unchanged |
| Actors.Player.Reset | cardsharp/blackjack/actor.py:212-220 | One empty hand, not done, no blackjack, bet, stake total and winnings zeroed; money and insurance kept |
| Actors.Dealer.constructor | cardsharp/blackjack/actor.py:226-232 | A new dealer holds one empty hand |
| Actors.Dealer.HasAce | cardsharp/blackjack/actor.py:238-240 | True exactly when the first card is an ace; an empty hand has no first card (an `IndexError` in the source) |
| Actors.Dealer.AddCard | cardsharp/blackjack/actor.py:242-244 | The card is appended to the dealer's hand |
| Actors.Dealer.ShouldHit | cardsharp/blackjack/actor.py:246-251 | The dealer hits below 17 or on a soft 17, so a hitting dealer holds at most 17 and a standing one at least 17 |
| Actors.Dealer.Reset | cardsharp/blackjack/actor.py:253-256 | The dealer is back to one empty hand |
| BlackjackRound.HandWinnerRules | cardsharp/blackjack/state.py:434-442 | A busted hand loses even to a busted dealer; otherwise a busted dealer loses; between two standing totals the higher wins and equal ones draw, and swapping the totals swaps the winner |
| BlackjackRound.DealerRuleIsHitSoft17 | cardsharp/blackjack/actor.py:246-251 | The dealer's own drawing rule is the table rule with soft-17 hitting on; with it off the two differ only on a soft 17 |
| BlackjackRound.WinnersFor | cardsharp/blackjack/state.py:428-443 | One winner entry per hand, in hand order, each the comparison of that hand's value with the dealer's |
| BlackjackRound.HandPayoutAmount | cardsharp/blackjack/state.py:479-502 | A hand without a stake or a lost hand is paid nothing; a draw returns the bet; a win pays twice the bet, or the bet plus bet times the blackjack payout on a blackjack |
| BlackjackRound.PaymentsFrom | cardsharp/blackjack/state.py:481-498 | The payout calls for a player's hands are at most one per hand, each naming that player and one of the hands, in hand order |
| BlackjackRound.SettledBets | cardsharp/blackjack/state.py:499-502 | After settlement exactly the staked lost hands have their bet cleared; every other bet stays |
| BlackjackRound.PaymentsReturnStake | cardsharp/blackjack/state.py:486-498 | With non-negative bets and payout ratio, every payment is at least the stake it settles |
| BlackjackRound.GetValidActions | cardsharp/blackjack/state.py:326-344 | Hit and stand always come first; double only on two cards the table lets double, on the first hand or with double-after-split; split only on a splittable pair with fewer than four hands; surrender only on two cards the table lets surrender; never insurance; one-card or three-card hands get only hit and stand |
| BlackjackRound.SettleHands | cardsharp/blackjack/state.py:481-502 | The inner loop over one player's hands makes exactly the payout calls and bet clearings the specification functions describe |
| BlackjackRound.HandWinners | cardsharp/blackjack/state.py:432-443 | The inner loop over one player's hands builds `WinnersFor` |
| BlackjackRound.ClearInsurance | cardsharp/blackjack/state.py:266-275 | Only the insurance stake changes, and only a positive one, to 0 |
| BlackjackRound.AssignWinners | cardsharp/blackjack/state.py:428-443 | Each player's winner list is replaced by `WinnersFor` of that player's hands; nothing else changes |
| BlackjackRound.SettleAllHands | cardsharp/blackjack/state.py:479-502 | Each player's bets become `SettledBets`, and the payout calls are made player by player in seat order |
| BlackjackRound.SettleInsurance | cardsharp/blackjack/state.py:264-275 | Each positive insurance stake is cleared, and is paid three times over exactly when the dealer has a blackjack |
| BlackjackRound.SettleAgainstDealerBlackjack | cardsharp/blackjack/state.py:277-290 | Against a dealer blackjack a player whose first hand is a blackjack draws and gets the first bet back; every other player loses |
| BlackjackRound.PayPlayerBlackjacks | cardsharp/blackjack/state.py:229-240 | Each player whose first hand is a blackjack is paid the first bet plus bet times the payout, marked a blackjack winner and the current hand done |
| BlackjackRound.PlayerBlackjackWins | cardsharp/blackjack/state.py:229-240 | A blackjack player is marked as a blackjack winner with the current hand done and nothing else changed; any other player is untouched |
| BlackjackRound.Round.CalculateWinner | cardsharp/blackjack/state.py:428-443 | `calculate_winner` sets each player's winner list from the dealer's value and changes nothing else |
| BlackjackRound.Round.HandlePayouts | cardsharp/blackjack/state.py:479-502 | `handle_payouts` clears lost stakes and appends every player's payout calls in seat and hand order |
| BlackjackRound.Round.SettleDealerBlackjack | cardsharp/blackjack/state.py:259-290 | Against a dealer blackjack: insurance paid three times over and cleared, then a blackjack player pushes and every other player loses |
| BlackjackRound.Round.SettlePlayerBlackjacks | cardsharp/blackjack/state.py:218-240 | Without a dealer blackjack: insurance lost and cleared, then each player blackjack is paid at the blackjack payout |
| BlackjackRound.BlackjackPaymentsStep | cardsharp/blackjack/state.py:229-236 | A player with a blackjack adds one payout call, on hand 0, of bet times one plus the payout |
| BlackjackRound.PushPaymentsIgnoreInsurance | cardsharp/blackjack/state.py:277-283 | The push payouts depend only on hands and bets, so clearing insurance first does not change them |
| BlackjackRound.BlackjackPaymentsIgnoreInsurance | cardsharp/blackjack/state.py:229-236 | The blackjack payouts depend only on hands and bets, so clearing insurance first does not change them |
| StateModels.NewHand | cardsharp/state/models.py:31-59 | A hand built with only a bet holds no cards and is unresolved, not surrendered and not split |
| StateModels.ComputeValue | cardsharp/state/models.py:95-178 | For hands of library `Card` objects, which reach only the enum-rank branch (:131-155) and the ace loop (:173-178): aces count 1, then 10 is added per ace while the total stays at most 21; the result is the best blackjack total, and over 21 only when even the hard total is |
| StateModels.SnapshotTestsAgree | cardsharp/state/models.py:61-93 | The snapshot's blackjack test is the hand's own; it is bust exactly when the hard total is over 21; every hand soft by the hand's own test is soft here too |
| StateModels.AceIndex | cardsharp/state/models.py:76-83 | A hand with an ace count above zero has an ace at some position, the card the `is_soft` loop stops at |
| StateModels.CurrentHand | cardsharp/state/models.py:202-207 | No current hand exactly when there are no hands or the index is past them; otherwise the hand at the index |
| StateModels.VisibleCards | cardsharp/state/models.py:225-230 | The visible cards are a prefix of the dealer's hand, `visible_card_count` long or the whole hand if shorter |
| StateModels.VisibleValue | cardsharp/state/models.py:232-238 | With every card visible, the visible value is the hand's value |
| StateModels.CurrentPlayer | cardsharp/state/models.py:268-273 | No current player exactly when the index is past the players; otherwise the player at the index |
| StateModels.CurrentPlayerHand | cardsharp/state/models.py:275-281 | There is a current player's hand exactly when there is a current player with a current hand, and it is that hand |
| StateTransitions.FindPlayer | cardsharp/state/transitions.py:80-87 | The search finds the first seat holding the id, and finds nothing exactly when no seat holds it |
| StateTransitions.FindPlayerIndex | cardsharp/state/transitions.py:80-87 | The search loop returns what `FindPlayer` specifies |
| StateTransitions.SameIdsSameSearch | cardsharp/state/transitions.py:80-87 | The search depends only on the players' ids |
| StateTransitions.AddPlayer | cardsharp/state/transitions.py:31-67 | A new player with the given id, name and balance, no hands, hand index 0 and not done is appended at the end; nothing else changes |
| StateTransitions.RemovedIndexAsWrittenGoesNegative | cardsharp/state/transitions.py:95-106 | As written, removing the current player at seat 0 of three sets the current index to -1 |
| StateTransitions.RemovedIndex | cardsharp/state/transitions.py:95-106 | The corrected index stays in range when players remain; a removal before the current seat shifts it down by one, a removal of the current seat keeps it (the next player takes the turn) unless it fell off the end, a later removal leaves it |
| StateTransitions.RemovedIndexCorrectsOnlyOwnSeat | cardsharp/state/transitions.py:95-106 | The corrected rule agrees with the written one except when the current player is removed from a seat before the end |
| StateTransitions.RemovePlayer | cardsharp/state/transitions.py:69-126 | An unknown id changes nothing; otherwise that player's seat is dropped and only the player list and the current index change. The new index follows the corrected rule: one lower when an earlier seat left, unchanged when a later seat left, unchanged when the current player left from a seat before the end (the next player takes the turn), in range while players remain, 0 when nobody is left |
| StateTransitions.RemoveUndoesAdd | cardsharp/state/transitions.py:31-126 | A player who has just joined under a fresh id can leave again and the state is as it was |
| StateTransitions.PlaceBet | cardsharp/state/transitions.py:128-189 | Outside the betting stage, for an unknown player or a balance below the amount nothing changes; otherwise the balance drops by the amount and the player holds one new hand with that bet |
| StateTransitions.DealCard | cardsharp/state/transitions.py:191-317 | A dealer card is appended to the dealer's hand, raising the visible count when visible; a player card is appended to exactly one hand of that player; either way the shoe count drops by one; an unknown player or hand index changes nothing |
| StateTransitions.AdvanceToNextHand | cardsharp/state/transitions.py:793-848 | The turn moves to the player's next hand; else the player is done and the next player is up; else the last player is done and the dealer's turn starts; other players untouched |
| StateTransitions.TotalBetsAppend | cardsharp/state/transitions.py:401-513 | The stake total of two lists of hands is the sum of their totals |
| StateTransitions.TotalBetsSplice | cardsharp/state/transitions.py:433-485 | Replacing one hand by a list of hands changes the stake total by their difference |
| StateTransitions.Doubled | cardsharp/state/transitions.py:401-432 | A doubled hand keeps its cards, doubles its bet and is marked doubled |
| StateTransitions.SplitHands | cardsharp/state/transitions.py:433-485 | Splitting a two-card hand gives two split hands of one card each, each carrying the original bet |
| StateTransitions.Surrendered | cardsharp/state/transitions.py:486-513 | A surrendered hand is resolved as surrendered with half its bet as payout |
| StateTransitions.HitMove | cardsharp/state/transitions.py:365-396 | A hit deals the card to the current hand and passes the turn on exactly when the hand busts |
| StateTransitions.DoubleMove | cardsharp/state/transitions.py:401-432 | With two cards and a balance covering the bet, the hand is doubled and takes one card while every other player stays as it was; otherwise nothing changes |
| StateTransitions.SplitMove | cardsharp/state/transitions.py:433-485 | The current hand is replaced by two one-card hands right after the hands before it, later hands shift one on, and the balance pays a second bet |
| StateTransitions.SurrenderMove | cardsharp/state/transitions.py:486-513 | On two cards the hand is surrendered, half the bet is credited and the turn passes on; otherwise nothing changes |
| StateTransitions.PlayerAction | cardsharp/state/transitions.py:319-530 | Nothing changes unless it is the players' turn and the actor is the current player with a current hand; then each action does its move and an unknown action nothing |
| StateTransitions.StandAdvances | cardsharp/state/transitions.py:397-400 | Standing always passes the turn on |
| StateTransitions.TotalBetsSingle | cardsharp/state/transitions.py:401-513 | One hand's stake total is its bet |
| StateTransitions.TotalBetsUpdate | cardsharp/state/transitions.py:401-432 | Replacing one hand changes the stake total by the difference of the bets |
| StateTransitions.DoubleKeepsHoldings | cardsharp/state/transitions.py:401-432 | Doubling keeps the acting player's balance plus stakes, and changes no other player |
| StateTransitions.SplitKeepsHoldings | cardsharp/state/transitions.py:433-485 | Splitting keeps the acting player's balance plus stakes, and changes no other player |
| StateTransitions.SurrenderPaysHalf | cardsharp/state/transitions.py:486-513 | Surrendering credits half the bet and marks the hand surrendered |
| StateTransitions.HitTakesCard | cardsharp/state/transitions.py:365-396 | A hit appends the card to the current hand and takes one card from the shoe; without a bust the same player and hand stay up |
| StateTransitions.DealerAction | cardsharp/state/transitions.py:532-593 | Outside the dealer's turn nothing changes; a dealer hit deals one visible card from the shoe; standing marks the dealer done and ends the round; anything else changes nothing |
| StateTransitions.ChangeStage | cardsharp/state/transitions.py:595-631 | Only the stage changes |
| StateTransitions.Settle | cardsharp/state/transitions.py:643-715 | A bust loses; a dealer bust pays 2x (2.5x for a blackjack); blackjack against none pays 2.5x; a dealer blackjack beats a hand without one; two blackjacks push; otherwise the higher value pays 2x, a lower one loses and equal ones push |
| StateTransitions.ResolveHand | cardsharp/state/transitions.py:643-715 | A hand already resolved or surrendered is untouched; any other gets its result and payout; cards and bet never change |
| StateTransitions.ResolvePlayer | cardsharp/state/transitions.py:633-756 | Every hand of a player is resolved, the new payouts are credited to the balance and the player is done |
| StateTransitions.ResolveHands | cardsharp/state/transitions.py:633-756 | Resolution happens only at the end of the round, and then resolves every player and changes nothing else |
| StateTransitions.ResolveHandsLoop | cardsharp/state/transitions.py:633-756 | The loop over the players, each resolved by the inner loop, computes `ResolveHands` |
| StateTransitions.ResolvePlayerLoop | cardsharp/state/transitions.py:654-737 | One player's hands are settled in order, each new payout credited as it is found, giving exactly `ResolvePlayer` |
| StateTransitions.ResolvedHands | cardsharp/state/transitions.py:659-715 | The resolved list has one entry per hand, entry j being hand j resolved against the dealer |
| StateTransitions.ResolvedHandsUntouched | cardsharp/state/transitions.py:643-650 | A hand resolved before is unchanged and pays nothing more |
| StateTransitions.PayoutsBounded | cardsharp/state/transitions.py:643-715 | With non-negative bets the payouts credited are between 0 and two and a half times the stakes |
| StateTransitions.PrepareNewRound | cardsharp/state/transitions.py:758-791 | A new round: round number up, every player's hands cleared and not done, a fresh dealer, first player up, bets being taken, shoe count kept |
| StateTransitions.PrepareNewRoundLoop | cardsharp/state/transitions.py:758-791 | The loop over the players computes `PrepareNewRound` |
| StateTransitions.NewRoundTakesBetsFirst | cardsharp/state/transitions.py:319-357 | After a new round is prepared no player action and no resolution changes anything |
| ClassicVariant.ClassicLegality | cardsharp/blackjack/variants/classic.py:19-35 | Doubling is refused off two cards and on a split hand without double-after-split; surrender is refused after a double, after the first action and on a split hand, and otherwise follows the table's permission |
| ClassicVariant.ClassicMaxHandsAfterSplit | cardsharp/blackjack/variants/classic.py:45-47 | Exactly one hand more than the splits allowed |
| ClassicVariant.ClassicResolveValues | cardsharp/blackjack/variants/classic.py:53-85 | Two blackjacks push, a player blackjack wins, a dealer blackjack wins; without blackjacks the result is the end-of-round comparison of the two values |
| ClassicVariant.ClassicResolutionOrder | cardsharp/blackjack/variants/classic.py:70-85 | Without blackjacks a busted player loses even to a busted dealer, a busted dealer otherwise loses, and between standing totals the result is symmetric and a draw exactly on equal totals |
| ClassicVariant.ClassicPayoutMatchesSettlement | cardsharp/blackjack/variants/classic.py:91-106 | For a winning hand the calculator returns what the end-of-round settlement pays; with the default odds a blackjack returns 2.5 times the stake and an insurance win 2 times |
| Spanish21Variant.SpanishAllowsMore | cardsharp/blackjack/variants/spanish21.py:18-26 | Whatever classic allows Spanish 21 allows too: doubling on any card count under the table's permission, surrender even after a double, but never on a split hand |
| Spanish21Variant.SpanishResolveValues | cardsharp/blackjack/variants/spanish21.py:44-76 | A player blackjack or player 21 always wins, even against a dealer blackjack; otherwise a dealer blackjack wins; otherwise the bust checks and the comparison decide |
| Spanish21Variant.SpanishNeverWorseThanClassic | cardsharp/blackjack/variants/spanish21.py:44-76 | The Spanish result is never worse for the player than the classic one, is the same without a player blackjack or 21, and turns a blackjack push into a win |
| Spanish21Variant.EvaluateSpecialHand | cardsharp/blackjack/variants/spanish21.py:125-169 | A bonus hand is always worth 21 and has three or at least five cards; at 21 five cards pay 0.5, six 1.0, seven or more 2.0; every multiplier is 0.5, 1.0 or 2.0 |
| Spanish21Variant.ThreeCardBonuses | cardsharp/blackjack/variants/spanish21.py:147-167 | A six-seven-eight of spades pays 2.0 and a mixed-suit seven-seven-seven pays 0.5 |
| Spanish21Variant.SpanishPayoutPrecedence | cardsharp/blackjack/variants/spanish21.py:86-101 | A bonus hand pays bet times one plus its multiplier ahead of the blackjack odds; without one the payout is the classic one at the default odds; a bonus never returns less than the stake |
| Spanish21Variant.SuitRowAsWritten | cardsharp/blackjack/variants/spanish21.py:116-122 | A suit's row never has more cards than ranks enumerated |
| Spanish21Variant.DeckAsWritten | cardsharp/blackjack/variants/spanish21.py:113-123 | The deck as written has at most one card per suit and enumerated rank |
| Spanish21Variant.RowStep | cardsharp/blackjack/variants/spanish21.py:116-122 | One more enumerated rank adds its card exactly when the loop keeps that rank |
| Spanish21Variant.DeckStep | cardsharp/blackjack/variants/spanish21.py:115-122 | One more suit adds that suit's row |
| Spanish21Variant.CreateDeckAsWritten | cardsharp/blackjack/variants/spanish21.py:113-123 | The nested deck loop builds `DeckAsWritten` of the four suits |
| Spanish21Variant.SuitRowLoop | cardsharp/blackjack/variants/spanish21.py:116-122 | The inner loop builds one suit's row, skipping the joker and Ten |
| Spanish21Variant.RowKeepsRanks | cardsharp/blackjack/variants/spanish21.py:116-122 | Every card of a row has a kept rank: neither the joker nor Ten |
| Spanish21Variant.DeckKeepsRanks | cardsharp/blackjack/variants/spanish21.py:113-123 | Every card of the deck as written has a kept rank |
| Spanish21Variant.RowAsWrittenHasNine | cardsharp/blackjack/variants/spanish21.py:116-122 | Each suit's row as written has nine cards |
| Spanish21Variant.DeckAsWrittenLacksTens | cardsharp/blackjack/variants/spanish21.py:113-123 | The deck as written has 36 cards, none ten-valued, so no two of its cards make 21 |
| Spanish21Variant.SpanishDeck | cardsharp/blackjack/variants/spanish21.py:113-123 | The intended deck has 48 cards, card `i` of suit `i / 12` and rank entry `i % 12` |
| Spanish21Variant.SpanishDeckKeepsFaces | cardsharp/blackjack/variants/spanish21.py:113-123 | Each suit of the intended deck is the standard suit less its Ten entry: it keeps the three face cards, has no joker, and an ace with a king makes 21 |
| Notation.ActionFromLetter | cardsharp/blackjack/notation.py:37-43 | `Action(c)` accepts exactly the six action letters H S D P R I, and the action it returns prints back as the same letter |
| Notation.ActionFromText | cardsharp/blackjack/notation.py:37-43 | `Action(t)` succeeds exactly on a one-character string holding an action letter, and that string is the action's value |
| Notation.OutcomeFromText | cardsharp/blackjack/notation.py:46-51 | `Outcome(t)` succeeds exactly on the five outcome codes W, L, P, BJ-W, R-L and the outcome prints back as `t` |
| Notation.FromStr | cardsharp/blackjack/notation.py:70-75 | `Card.from_str` succeeds exactly on a two-character string, the card prints back as that string, and any other length raises the invalid-card error naming the string |
| Notation.CardText | cardsharp/blackjack/notation.py:77-78 | A card is always written as exactly two characters, the length `from_str` demands |
| Notation.FromStrCardText | cardsharp/blackjack/notation.py:70-78 | `from_str(str(c)) == c` for every card |
| Notation.CardValue | cardsharp/blackjack/notation.py:60-68 | ace 1, T/J/Q/K 10, a digit its number; any other rank is the `int()` failure; a successful value lies in 0..10 |
| Notation.ParseOneChar | cardsharp/blackjack/notation.py:68 | `int()` of a one-character rank is the digit's value when it is a digit and fails otherwise |
| Notation.SignedOneChar | cardsharp/blackjack/notation.py:68 | the signed integer reading agrees with the unsigned one on a single character |
| Notation.ParsePieces | cardsharp/blackjack/notation.py:144-147 | parsing comma pieces succeeds exactly when every trimmed piece has two characters, gives one card per piece, and each card prints as its trimmed piece |
| Notation.ParseCardList | cardsharp/blackjack/notation.py:144-147 | `parse_card_list` yields one card per comma-separated piece |
| Notation.ParsePiecesOfTexts | cardsharp/blackjack/notation.py:144-147 | parsing the printed forms of cards (none containing blanks or separators) recovers the cards |
| Notation.ParseCardListJoin | cardsharp/blackjack/notation.py:144-147 | `parse_card_list(','.join(str(c) for c in cards)) == cards` for a non-empty list of such cards |
| Notation.CardGroup | cardsharp/blackjack/notation.py:155 | the optional `(...)` group after an action letter opens at the first character, closes at the first `)`, and holds no `)` |
| Notation.ScanActions | cardsharp/blackjack/notation.py:149-163 | the scan of `parse_action_sequence` yields at most one step per character |
| Notation.ThenPrepend | cardsharp/blackjack/notation.py:157-161 | appending the steps found so far commutes with prepending a step to the rest (the accumulator of the loop) |
| Notation.MatchAt | cardsharp/blackjack/notation.py:155-161 | one match consumes at least one character and advances the scan by exactly one step of `ScanActions`, or fails with its error |
| Notation.ParseActionSequence | cardsharp/blackjack/notation.py:149-163 | the `finditer` loop returns exactly the steps of the recursive scan |
| Notation.Token | cardsharp/blackjack/notation.py:96-101 | each rendered action begins with that action's letter |
| Notation.ActionsTextCons | cardsharp/blackjack/notation.py:96-103 | the joined action string of `[x] + xs` is the token of `x` followed by that of `xs` |
| Notation.KeptSteps | cardsharp/blackjack/notation.py:96-101 | rendering keeps every step's action and keeps its card exactly when the action is HIT |
| Notation.ScanActionsText | cardsharp/blackjack/notation.py:91-104 | `parse_action_sequence` of the rendered actions returns the steps, with the cards of non-HIT steps dropped |
| Notation.ScanHitWithCard | cardsharp/blackjack/notation.py:98-99 | `H(card)` scans as a HIT carrying that card |
| Notation.ScanLetter | cardsharp/blackjack/notation.py:100-101 | a bare action letter not followed by `(` scans as that action with no card |
| Notation.ScanToken | cardsharp/blackjack/notation.py:96-101 | any rendered step scans back as the step as rendering keeps it |
| Notation.ActionsTextStart | cardsharp/blackjack/notation.py:96-103 | a rendered action string is empty or starts with an action letter, never with `(` |
| Notation.HandToNotation | cardsharp/blackjack/notation.py:91-104 | `Hand.to_notation` is the comma-joined initial cards, a colon, then the rendered actions |
| TestCaseNotation.ActionTexts | cardsharp/blackjack/notation.py:224 | one one-letter code per expected action, in order |
| TestCaseNotation.NotationLines | cardsharp/blackjack/notation.py:220-232 | `to_notation` writes five field lines, and a sixth for the expected value exactly when that value is truthy |
| TestCaseNotation.Drop | cardsharp/blackjack/notation.py:239-254 | `line[k:]` is the rest of the line after its first `k` characters, and empty when `k` passes the end |
| TestCaseNotation.ParseActionPieces | cardsharp/blackjack/notation.py:249-250 | `[Action(a) for a in pieces]` succeeds exactly when every piece is an action code, with one action per piece that prints as that piece |
| TestCaseNotation.KindOf | cardsharp/blackjack/notation.py:238-254 | a line not starting with `#` or `@` sets no field |
| TestCaseNotation.ApplyLine | cardsharp/blackjack/notation.py:238-254 | a line of no kind leaves the fields read so far alone, and a line of one kind never changes the name or the deck unless it is of that kind |
| TestCaseNotation.SetDeck | cardsharp/blackjack/notation.py:241-243 | an `@deck:` line sets the deck and nothing else |
| TestCaseNotation.SetActions | cardsharp/blackjack/notation.py:248-250 | an `@expect_actions:` line sets the actions and nothing else |
| TestCaseNotation.SetOutcome | cardsharp/blackjack/notation.py:251-252 | an `@expect_outcome:` line sets the outcome and nothing else, or fails naming the stripped code |
| TestCaseNotation.SetValue | cardsharp/blackjack/notation.py:253-254 | an `@expect_value:` line sets the value and nothing else, or fails naming the text |
| TestCaseNotation.Build | cardsharp/blackjack/notation.py:256 | `cls(**data)` succeeds exactly when name, deck, rules, actions and outcome were all read, carries the expected value when one was read, and otherwise fails for a missing field |
| TestCaseNotation.FromNotation | cardsharp/blackjack/notation.py:234-256 | the line loop of `from_notation`, returning early on the first bad line, gives exactly the reading of the stripped text line by line |
| TestCaseNotation.ReadLinesStopsAtError | cardsharp/blackjack/notation.py:237-254 | once a line fails, the lines after it do not change the error |
| TestCaseNotation.NotationTextSplits | cardsharp/blackjack/notation.py:220-237 | the text written for a well-formed case has no surrounding whitespace and splits on newlines back into the lines that were joined |
| TestCaseNotation.ParseActionTexts | cardsharp/blackjack/notation.py:249-250 | parsing the written action codes gives back the actions |
| TestCaseNotation.ReadsDeck | cardsharp/blackjack/notation.py:241-243 | the written `@deck:` line reads back as the same deck |
| TestCaseNotation.ReadsOutcome | cardsharp/blackjack/notation.py:251-252 | the written `@expect_outcome:` line reads back as the same outcome |
| TestCaseNotation.ReadsValue | cardsharp/blackjack/notation.py:253-254 | the written `@expect_value:` line of a non-zero value reads back as that value |
| TestCaseNotation.ReadsAllLines | cardsharp/blackjack/notation.py:220-254 | reading the lines of a well-formed case fills every field with the case's own value |
| TestCaseNotation.FromToNotation | cardsharp/blackjack/notation.py:220-256 | `from_notation(to_notation(t))` gives back the name, deck, rules, actions and outcome of a well-formed case, and its expected value unless that value was zero |
| TestCaseNotation.TestSuite.constructor | cardsharp/blackjack/notation.py:262-263 | a new suite holds no tests |
| TestCaseNotation.TestSuite.AddTest | cardsharp/blackjack/notation.py:265-267 | `add_test` appends the case after the ones already held |
| TestParser.RankFromText | cardsharp/blackjack/test_parser.py:132-150 | the rank table never yields a joker |
| TestParser.RankSpellings | cardsharp/blackjack/test_parser.py:136-151 | `A` is the only spelling of the ace; `T`, `10`, `J`, `Q` and `K` all read as the ten-valued rank; every other rank is read from its own digit; `1` is not a rank |
| TestParser.SuitFromChar | cardsharp/blackjack/test_parser.py:154-159 | a suit is read exactly from one of the letters `s h d c` |
| TestParser.SuitChar | cardsharp/blackjack/test_parser.py:154-159 | every suit has a letter that reads back as that suit |
| TestParser.DeckToken | cardsharp/blackjack/test_parser.py:131-163 | A token that reads names a suited card that is not a joker |
| TestParser.DeckTokenReads | cardsharp/blackjack/test_parser.py:131-163 | a token is a card exactly when it has two or more characters, everything but the last names a rank and the last names a suit; the card has that rank and suit |
| TestParser.DeckCards | cardsharp/blackjack/test_parser.py:128-165 | `_parse_deck` keeps at most one card per token, and every card it keeps can be written back as a token |
| TestParser.ParseDeck | cardsharp/blackjack/test_parser.py:125-165 | the token loop of `_parse_deck` returns exactly the cards of the readable tokens, in order, skipping the rest |
| TestParser.CardCode | cardsharp/blackjack/test_parser.py:131-163 | every card without a joker has a one-line code that `_parse_deck` reads back as that card |
| TestParser.DeckCardsOfCodes | cardsharp/blackjack/test_parser.py:128-165 | parsing the codes of a list of cards gives back the cards |
| TestParser.ParseDeckOfCodes | cardsharp/blackjack/test_parser.py:125-165 | `_parse_deck` of the comma-joined codes of a non-empty list of cards gives back the cards |
| TestParser.TenSpellings | cardsharp/blackjack/test_parser.py:146-150 | `Th`, `10h` and `Kh` all read as the same ten of hearts |
| TestParser.UnreadableTokens | cardsharp/blackjack/test_parser.py:131-163 | `As` reads as the ace of spades while `Xh`, `A` and `1h` are skipped |
| TestParser.ActionFromCode | cardsharp/blackjack/test_parser.py:203-212 | the action table of the test parser never yields insurance |
| TestParser.ActionCodeReads | cardsharp/blackjack/test_parser.py:203-212 | a code is read exactly when it is the letter of an action other than insurance, and `I` is not read |
| TestParser.ActionList | cardsharp/blackjack/test_parser.py:200-214 | `_parse_actions` keeps at most one action per token and never an insurance |
| TestParser.ParseActions | cardsharp/blackjack/test_parser.py:195-214 | the token loop of `_parse_actions` returns exactly the actions of the readable tokens, in order |
| TestParser.ActionListOfCodes | cardsharp/blackjack/test_parser.py:200-214 | parsing the letters of actions without insurance gives back the actions |
| TestParser.ParseActionsOfCodes | cardsharp/blackjack/test_parser.py:195-214 | `_parse_actions` of the comma-joined letters of a non-empty list of such actions gives back the list |
| TestParser.DropLeading | cardsharp/blackjack/test_parser.py:48 | `lstrip` of one character removes exactly the leading run of it |
| TestParser.DropTrailing | cardsharp/blackjack/test_parser.py:48 | `rstrip` of one character removes exactly the trailing run of it |
| TestParser.DirectiveParts | cardsharp/blackjack/test_parser.py:44-49 | a line yields a key and value exactly when it has a colon |
| TestParser.DirectiveOfField | cardsharp/blackjack/test_parser.py:44-49 | the line `@key: value` splits into that key and that value |
| TestParser.TestNameLeads | cardsharp/blackjack/test_parser.py:105-123 | a generated name starts with the hand when the deck has four cards, and otherwise with the expected actions when there are some |
| TestParser.TestNameFallback | cardsharp/blackjack/test_parser.py:105-123 | with neither hand nor actions the name is the outcome alone, and with no outcome either it is `Test Case` and the case's position counting from one |
| TestParser.FinalizeAppends | cardsharp/blackjack/test_parser.py:85-103 | finalizing closes the open case and appends it, with its deck, rules, actions, outcome and value, after the cases already read |
| TestParser.SetFieldEffect | cardsharp/blackjack/test_parser.py:54-65 | a field directive fails only on an expected value that is not an integer, never touches the deck, and an unknown key changes nothing |
| TestParser.DeckDirective | cardsharp/blackjack/test_parser.py:51-53 | a `deck` directive closes a complete case and opens a fresh one holding the line's cards |
| TestParser.FieldStepEffect | cardsharp/blackjack/test_parser.py:54-65 | with a case open a field directive sets its field or fails on an unreadable value; with none open it is ignored; the cases read so far never change |
| TestParser.FieldDirective | cardsharp/blackjack/test_parser.py:42-65 | any directive other than `deck` fails only on an unreadable expected value with a case open, and otherwise keeps the cases and the cards |
| TestParser.RunLinesSound | cardsharp/blackjack/test_parser.py:19-38 | every state the file loop reaches holds only cards that can be written back, and every closed case has cards |
| TestParser.ParsedCasesHaveCards | cardsharp/blackjack/test_parser.py:19-40 | every case `parse_file` returns has at least one card |
| TestParser.DeckLines | cardsharp/blackjack/test_parser.py:19-40 | the number of `@deck` lines is at most the number of lines |
| TestParser.RunLinesOpens | cardsharp/blackjack/test_parser.py:19-38 | after any prefix of the file, the cases kept plus the case open number at most the `@deck` lines read |
| TestParser.CasesBoundedByDeckLines | cardsharp/blackjack/test_parser.py:19-40 | `parse_file` returns at most one case per `@deck` line |
| TestParser.RunLinesErrors | cardsharp/blackjack/test_parser.py:19-65 | the file loop fails only on an `@expect_value` line, with a case open, whose value is not an integer |
| TestParser.RunLinesStaysFailed | cardsharp/blackjack/test_parser.py:19-38 | once a line has raised, the lines after it do not change the outcome |
| TestParser.ApplyField | cardsharp/blackjack/test_parser.py:54-65 | the branch chain of `_parse_directive` for non-deck keys sets exactly the field the key names |
| TestParser.TestCaseParser.constructor | cardsharp/blackjack/test_parser.py:15-17 | a new parser has no open case and no cases |
| TestParser.TestCaseParser.IsCaseComplete | cardsharp/blackjack/test_parser.py:79-83 | a case is complete exactly when one is open and it has at least one card |
| TestParser.TestCaseParser.FinalizeCase | cardsharp/blackjack/test_parser.py:85-103 | `_finalize_case` moves the open case, named, to the end of the list |
| TestParser.TestCaseParser.OpenCase | cardsharp/blackjack/test_parser.py:51-53 | an `@deck` directive closes a complete case and opens a fresh one holding the parsed cards |
| TestParser.TestCaseParser.UpdateField | cardsharp/blackjack/test_parser.py:54-65 | a field directive changes the open case as the field step says, or reports the error and changes nothing |
| TestParser.TestCaseParser.ParseDirective | cardsharp/blackjack/test_parser.py:42-65 | `_parse_directive` moves the parser to the state the directive step gives, or reports the error and changes nothing |
| TestParser.TestCaseParser.ParseLine | cardsharp/blackjack/test_parser.py:26-34 | one line of the file moves the parser as the line step says, or reports the error |
| TestParser.TestCaseParser.ParseAllLines | cardsharp/blackjack/test_parser.py:21-34 | the file loop leaves the parser in the state the lines give, or stops at the first error |
| TestParser.TestCaseParser.ParseFile | cardsharp/blackjack/test_parser.py:19-40 | `parse_file` returns exactly the cases the lines describe, or the first error |
| War.FindPlayer | cardsharp/war/transitions.py:74-80 | the index found is the first seat holding the id, and none is found exactly when no seat holds it |
| War.AddPlayer | cardsharp/war/transitions.py:26-60 | `add_player` appends one player with no card, no wins and no streaks, and changes nothing else |
| War.RemovePlayer | cardsharp/war/transitions.py:62-104 | removing an unknown id changes nothing; removing a known one drops exactly the first seat with that id, the later seats move up one, and nothing else in the state changes |
| War.RemoveUndoesAdd | cardsharp/war/transitions.py:26-104 | removing a player just added under a fresh id restores the state |
| War.DealCard | cardsharp/war/transitions.py:106-158 | dealing to an unknown id changes nothing; otherwise only that player's card changes, to the card dealt |
| War.Highest | cardsharp/war/transitions.py:174-188 | the highest rank value on show is at least every player's and is some player's |
| War.Leaders | cardsharp/war/transitions.py:174-188 | the players sharing a value are exactly the seats showing it, in seat order |
| War.ScanHighest | cardsharp/war/transitions.py:174-188 | the scan of `compare_cards` ends with the highest value and exactly the seats that show it |
| War.ScanStep | cardsharp/war/transitions.py:184-188 | one step of the scan raises the highest value to a higher card, and adds the seat to the leaders exactly when it matches |
| War.NoLeadersAbove | cardsharp/war/transitions.py:184-186 | no seat shows a value above the highest |
| War.Credit | cardsharp/war/transitions.py:226-242 | the winner gains a win and extends the streak, raising the best streak to it; every other player's streak drops to zero |
| War.CreditKeepsStreaks | cardsharp/war/transitions.py:226-242 | crediting a round keeps every current streak at most the best streak, and never lowers wins or best streaks |
| War.CompareCards | cardsharp/war/transitions.py:170-172 | with fewer than two players or a player without a card, nothing changes and the result is a win |
| War.LeadersNonEmpty | cardsharp/war/transitions.py:174-191 | at least one seat shows the highest value |
| War.TieStartsWar | cardsharp/war/transitions.py:190-220 | a tie at the top starts a war holding every player's card in seat order, without counting a round |
| War.UniqueHighestWins | cardsharp/war/transitions.py:222-266 | a unique highest card wins: its owner is credited, the round is counted and the stage is round ended |
| War.SoleLeader | cardsharp/war/transitions.py:184-188 | when one seat alone shows a value, it alone leads at that value |
| War.ResolveWar | cardsharp/war/transitions.py:269-338 | with no active war or no cards in it nothing changes; otherwise the first player in the war is credited, the round counted, the war cleared and the round ended |
| War.WarGoesToFirstSeat | cardsharp/war/transitions.py:190-338 | a war started by `compare_cards` is always resolved for the first seat |
| War.ChangeStage | cardsharp/war/transitions.py:341-367 | only the stage changes |
| War.ResetForNewRound | cardsharp/war/transitions.py:370-395 | every card is cleared, the winner and the war are cleared and the stage is dealing; the rest of each player and the round count are kept |
| War.ResetThenCompareIsNoOp | cardsharp/war/transitions.py:170-172 | comparing right after a reset changes nothing, because no player shows a card |
| BaccaratHands.Points | cardsharp/baccarat/hand.py:42-53 | two to nine count their face value, the ace one, and every ten-valued card and the joker nothing |
| BaccaratHands.Total | cardsharp/baccarat/hand.py:42-53 | The points total of a hand never exceeds 9 per card |
| BaccaratHands.Value | cardsharp/baccarat/hand.py:31-56 | a hand's value is the last digit of its point total, so it lies in 0..9 |
| BaccaratHands.ValueAfterCard | cardsharp/baccarat/hand.py:41-56 | adding a card adds its points to the value, modulo ten |
| BaccaratHands.ThirdCardValue | cardsharp/baccarat/hand.py:76-96 | -1 exactly when the hand has fewer than three cards, otherwise the points of the third card |
| BaccaratHands.BaccaratHand.constructor | cardsharp/baccarat/hand.py:18-20 | a new hand holds no cards |
| BaccaratHands.BaccaratHand.AddCard | cardsharp/baccarat/hand.py:22-29 | `add_card` appends the card, so the count grows by one |
| BaccaratHands.BaccaratHand.CardCount | cardsharp/baccarat/hand.py:67-74 | the number of cards held |
| BaccaratHands.BaccaratHand.HandValue | cardsharp/baccarat/hand.py:31-56 | the summing loop returns the last digit of the point total |
| BaccaratRules.BankerTable | cardsharp/baccarat/rules.py:46-90 | the Banker side always draws on 0-2 and never on 7 or more; after a Player draw it draws on 3 unless the third card is 8, on 4 for 2-7, on 5 for 4-7, on 6 for 6-7; without a Player draw it draws exactly as the Player side would, on 5 or less |
| BaccaratGames.DetermineOutcome | cardsharp/baccarat/game.py:125-140 | the Player side wins exactly on a higher value, the Banker side exactly on a higher value, and a tie exactly on equal values |
| BaccaratGames.OutcomeSymmetric | cardsharp/baccarat/game.py:125-140 | swapping the two values swaps the winner and keeps a tie |
| BaccaratGames.Payout | cardsharp/baccarat/game.py:142-183 | a Player bet wins even money, pushes on a tie and otherwise loses the stake; a Banker bet wins the stake less commission, pushes on a tie and otherwise loses; a Tie bet wins the stake times the tie odds and otherwise loses |
| BaccaratGames.PayoutShape | cardsharp/baccarat/game.py:142-183 | without commission a Banker bet is the mirror of a Player bet; with a commission in [0,1] a Banker win pays between nothing and a Player win; no bet loses more than its stake |
| BaccaratGames.ToPlayer | cardsharp/baccarat/game.py:89-92 | a card dealt to the Player side is the last card of the supply, and no card is lost or made |
| BaccaratGames.ToBanker | cardsharp/baccarat/game.py:89-92 | a card dealt to the Banker side is the last card of the supply, and no card is lost or made |
| BaccaratGames.InitialDeal | cardsharp/baccarat/game.py:83-92 | the opening deal alternates Player, Banker, Player, Banker from the end of the supply, four cards in all, and keeps the cards |
| BaccaratGames.DrawThirdCards | cardsharp/baccarat/game.py:94-123 | a natural on either side ends the drawing; otherwise each side gains at most one card on top of what it held, and no card is lost or made |
| BaccaratGames.DrawingFollowsTable | cardsharp/baccarat/game.py:109-123 | with no natural, the Player side draws exactly on 5 or less, and the Banker side exactly as the table says for the Player side's third card |
| BaccaratGames.NaturalSurvivesDrawing | cardsharp/baccarat/game.py:104-107 | drawing neither creates nor removes a natural on a two-card deal |
| BaccaratGames.RoundTakesCards | cardsharp/baccarat/game.py:196-203 | a round takes four to six cards from the supply, and the hands and the rest of the supply together are as many cards as it had |
| BaccaratGames.RoundKeepsCards | cardsharp/baccarat/game.py:196-203 | the hands and the rest of the supply hold exactly the cards the supply had before the round |
| BaccaratGames.RoundNaturals | cardsharp/baccarat/game.py:94-123 | a round ends with a natural on either side exactly when its opening deal had one, so the third-card stage neither makes nor hides a natural |
| BaccaratGames.BaccaratGame.constructor | cardsharp/baccarat/game.py:50-76 | a new game keeps its rules and shoe, holds two empty hands and starts every counter at zero |
| BaccaratGames.BaccaratGame.ResetHands | cardsharp/baccarat/game.py:78-81 | `reset_hands` gives both sides new empty hands and changes nothing else |
| BaccaratGames.BaccaratGame.DealOne | cardsharp/baccarat/game.py:89 | one card is taken from the end of the shoe, and nothing else changes |
| BaccaratGames.BaccaratGame.DealInitialCards | cardsharp/baccarat/game.py:83-92 | `deal_initial_cards` leaves the table as the opening deal says, and changes no counter |
| BaccaratGames.BaccaratGame.ApplyDrawingRules | cardsharp/baccarat/game.py:94-123 | `apply_drawing_rules` leaves the table as the third-card stage says, and counts a natural exactly when either side held one |
| BaccaratGames.BaccaratGame.RecordOutcome | cardsharp/baccarat/game.py:208-215 | the round is counted, and exactly the counter of its outcome goes up |
| BaccaratGames.BaccaratGame.DealRound | cardsharp/baccarat/game.py:196-203 | a round's cards are those the round function gives for the shoe, and a natural is counted exactly when either side holds one |
| BaccaratGames.BaccaratGame.PlayRound | cardsharp/baccarat/game.py:185-231 | `play_round` reports the outcome, values, card counts and naturals of the hands dealt, pays the bet by the payout table, and moves the round counter and exactly one outcome counter |
| DragonTiger.CardValue | cardsharp/dragon_tiger/game.py:67-107 | the ace is 1, every other rank its rank value, so the jack, queen and king (aliases of the ten) are 10 like the ten, and the joker falls through to 0 |
| DragonTiger.DetermineOutcome | cardsharp/dragon_tiger/game.py:141-160 | Dragon wins exactly on a higher card value, Tiger exactly on a higher card value, and a tie exactly on equal values |
| DragonTiger.SwapSwapsWinner | cardsharp/dragon_tiger/game.py:141-160 | swapping the two cards swaps the winner, and a card against itself ties |
| DragonTiger.Payout | cardsharp/dragon_tiger/game.py:162-202 | a side bet wins even money when its side wins and loses the stake when the other side wins; on a tie it pushes under the tie-push rule and otherwise loses; a Tie bet wins the stake times the tie odds and otherwise loses |
| DragonTiger.PayoutSymmetric | cardsharp/dragon_tiger/game.py:162-202 | a Dragon bet pays what a Tiger bet pays on the mirrored outcome; no bet loses more than its stake; a side bet pushes on a tie under the tie-push rule |
| DragonTiger.DragonTigerGame.constructor | cardsharp/dragon_tiger/game.py:117-139 | a new game keeps its rules and shoe and starts every counter at zero |
| DragonTiger.DragonTigerGame.Deal | cardsharp/dragon_tiger/game.py:216-217 | a card is taken from the end of the shoe, and nothing else changes |
| DragonTiger.DragonTigerGame.PlayRound | cardsharp/dragon_tiger/game.py:204-243 | Dragon's card is dealt first and Tiger's second from the end of the shoe; the result carries the outcome and both values; the bet is paid by the payout table; the round counter and exactly one outcome counter go up |
| Casino.CrowdedInIntegers | cardsharp/blackjack/casino.py:164 | the crowding threshold, at least 80% of the seats, is five times the players reaching four times the seats |
| Casino.SevenSeatTable | cardsharp/blackjack/casino.py:164 | at a table of seven seats the sixth player makes it crowded |
| Casino.TableConditions.constructor | cardsharp/blackjack/casino.py:153-164 | a table given no player count seats the drawn number instead, which lies between 1 and one less than capacity, so the table starts consistent; the crowding flag follows the count |
| Casino.TableConditions.PlayerArrives | cardsharp/blackjack/casino.py:193-204 | an arrival succeeds exactly when a seat is free, adds one player and refreshes the crowding flag; a table within its capacity stays within it |
| Casino.TableConditions.PlayerLeaves | cardsharp/blackjack/casino.py:206-217 | a departure succeeds exactly when someone is seated, removes one player and refreshes the crowding flag; a table within its capacity stays within it |
| DurakState.DurakValue | cardsharp/durak/constants.py:6-26 | Durak values never exceed 14 |
| DurakState.DurakValueOrder | cardsharp/durak/constants.py:6-26 | only the ace is worth 14, only the ten-valued rank (king, queen, jack and ten alike) 13 and only the joker 0; two to nine keep their face value; no two ranks share a value |
| DurakState.UndefendedCard | cardsharp/durak/state.py:50-54 | there is an undefended card exactly when more cards attack than defend |
| DurakState.UndefendedAtFirstOpen | cardsharp/durak/state.py:46-54 | there is an undefended card exactly when some attack position is open; it is the card at the first open position, and no open position lies before it |
| DurakState.Pairs | cardsharp/durak/state.py:56-63 | one pair per attack card |
| DurakState.PairsShowOpenPositions | cardsharp/durak/state.py:46-63 | each pair holds its attack card; it lacks a defence card exactly at an open position and otherwise holds the defence card played at that position; the first such pair holds the undefended card |
| DurakState.AttackDefensePairs | cardsharp/durak/state.py:56-63 | the loop of `attack_defense_pairs` builds exactly the pairs |
| DurakState.HasCardValues | cardsharp/durak/state.py:93-95 | a player has a card of every value in the hand, only of values in 0..14, and none when the hand is empty |
| DurakState.Seat | cardsharp/durak/state.py:161-187 | a seat is found exactly when the index is set and in range, and the player found sits at the table |
| DurakState.PlayersInGame | cardsharp/durak/state.py:189-192 | the players in game are players at the table who are not out |
| DurakState.PlayersInGameComplete | cardsharp/durak/state.py:189-192 | every player at the table who is not out is among the players in game |
| DurakState.InGameAtMostOne | cardsharp/durak/state.py:189-192 | at most one player is in game exactly when no two seats hold players who are not out, and none exactly when every seat's player is out |
| DurakState.GameEndedMeans | cardsharp/durak/state.py:194-197 | the game has ended exactly when the stage says so or at most one seat holds a player still in it |
| DurakRound.SeatFrom | cardsharp/durak/transitions.py:913-923 | a seat the search returns is in range and eligible: its player is not out and it is not the seat to avoid |
| DurakRound.NextSeatIndex | cardsharp/durak/transitions.py:916 | one step round the table from the last seat is the first seat |
| DurakRound.SeatFound | cardsharp/durak/transitions.py:913-923 | the search finds a seat when an eligible seat lies within its reach |
| DurakRound.SeatFoundInOneTurn | cardsharp/durak/transitions.py:913-923 | when any seat is eligible, one turn round the table finds one |
| DurakRound.NextSeat | cardsharp/durak/transitions.py:913-923 | the skip loop stops at a seat in range whose player is not out |
| DurakRound.SkipLoop | cardsharp/durak/transitions.py:913-923 | the `while players[i].is_out` loop ends at exactly the seat the search gives |
| DurakRound.EligibleAfterUpdate | cardsharp/durak/transitions.py:913-923 | changing a player in any field but `is_out` keeps an eligible seat eligible |
| DurakRound.DrawnFills | cardsharp/durak/transitions.py:946-949 | a refilled hand is the old hand followed by the front of the deck; it reaches the threshold unless the deck ran out, and a hand that drew does not pass it |
| DurakRound.DrawLoop | cardsharp/durak/transitions.py:947-949 | the `pop(0)` loop leaves exactly the hand and deck of the refill |
| DurakRound.Refill | cardsharp/durak/transitions.py:930-964 | the refill yields one player per seat |
| DurakRound.RefillLoop | cardsharp/durak/transitions.py:930-964 | the seat loop of `end_round` produces exactly the refilled players and the rest of the deck |
| DurakRound.RefreshedDraws | cardsharp/durak/transitions.py:934-962 | a player keeps the old hand as the start of the new one, takes new cards from the front of the deck, and, unless out, reaches the threshold or empties the deck |
| DurakRound.RefillKeepsHands | cardsharp/durak/transitions.py:930-964 | every hand after the refill starts with the hand before it |
| DurakRound.RefillSetsRoles | cardsharp/durak/transitions.py:934-962 | after the refill exactly the chosen attacker and defender seats carry their roles, every pass count is zero, a player out stays out, and a player in the game with cards stays in |
| DurakRound.RefillLeavesBack | cardsharp/durak/transitions.py:930-964 | the deck left after the refill is the back of the old deck |
| DurakRound.RefillFills | cardsharp/durak/transitions.py:946-949 | every player in the game reaches the threshold unless the deck ends up empty |
| DurakRound.HeldUpdate | cardsharp/durak/transitions.py:930-964 | replacing one player's hand changes the cards held by exactly that hand's difference |
| DurakRound.RefillConserves | cardsharp/durak/transitions.py:930-964 | the hands and deck after the refill hold exactly the cards the hands and deck held before |
| DurakRound.RefreshedConserves | cardsharp/durak/transitions.py:946-949 | refilling one hand moves cards from deck to hand without losing or making any |
| DurakRound.NextDefenderAsWritten | cardsharp/durak/transitions.py:910-923 | as written, the next defender is the first seat after the old defender whose player is not out |
| DurakRound.EndRoundAsWritten | cardsharp/durak/transitions.py:895-1030 | `end_round` as written clears the table and counts the round |
| DurakRound.EndRoundAsWrittenSameSeat | cardsharp/durak/transitions.py:917-923 | with two players, both in the game with cards, attacker at seat 0 and defender at seat 1, when the defender takes the cards the game goes on with seat 0 as both attacker and defender |
| DurakRound.EndRoundWith | cardsharp/durak/transitions.py:925-1030 | Whichever seat is made defender, ending the round leaves the table empty and counts one more round |
| DurakRound.EndRound | cardsharp/durak/transitions.py:895-1030 | ending a round clears the table and counts the round |
| DurakRound.NextDefender | cardsharp/durak/transitions.py:906-923 | the next defender is a seat whose player is not out, and never the next attacker when another seat is in the game |
| DurakRound.SeatFromAvoid | cardsharp/durak/transitions.py:913-923 | a search that does not stop at a seat gives the same result as the search that avoids it |
| DurakRound.NextDefenderCorrects | cardsharp/durak/transitions.py:906-923 | whenever the written choice of defender is not the next attacker, the corrected choice and the corrected `end_round` agree with the written ones |
| DurakRound.EndRoundStage | cardsharp/durak/transitions.py:966-1014 | the game ends exactly when at most one player is left in it, and otherwise the next stage is the attack; the state says the game ended exactly when its stage does; the loser is the one player left, if any |
| DurakRound.EndRoundRoles | cardsharp/durak/transitions.py:906-923 | the defender attacks next if the defence held, otherwise the attacker keeps attacking; the attacker moves first; the next defender is a player not out and never the attacker |
| DurakRound.EndRoundRefill | cardsharp/durak/transitions.py:925-964 | the players and deck are those of the refill, and the table's attack and defence cards go onto the discard pile in that order |
| DurakRound.EndRoundRefills | cardsharp/durak/transitions.py:930-964 | each hand keeps its cards and is topped up to the threshold unless the deck runs out; every pass count is cleared |
| DurakRound.EndRoundDrawsFromFront | cardsharp/durak/transitions.py:946-949 | the new cards come from the front of the deck |
| DurakRound.EndRoundConserves | cardsharp/durak/transitions.py:895-1030 | ending a round loses no card and makes none across hands, deck, table and discard pile |
| DurakTransitions.FindPlayer | cardsharp/durak/transitions.py:302-307 | the index found is the first seat holding the id, and none is found exactly when no seat holds it |
| DurakTransitions.FindPlayerIndex | cardsharp/durak/transitions.py:82-87 | the `break` loop over the seats finds exactly the first seat holding the id |
| DurakTransitions.FindLast | cardsharp/durak/transitions.py:819-827 | the index found is the last seat holding the id, and none is found exactly when no seat holds it |
| DurakTransitions.FindDefenderAndTarget | cardsharp/durak/transitions.py:819-827 | the loop of `pass_attack_to_player` ends with the last seat of the defender's id and, unless the target is the defender, the last seat of the target's id |
| DurakTransitions.AddThenRemove | cardsharp/durak/transitions.py:35-112 | a player added under a fresh id sits at the last seat, and removing that id restores the state |
| DurakTransitions.AddPlayerConserves | cardsharp/durak/transitions.py:35-68 | adding a player, with an empty hand, changes no card |
| DurakTransitions.RemovePlayerEffect | cardsharp/durak/transitions.py:71-112 | removing an unknown id changes nothing; otherwise exactly the first seat with that id is dropped, the seats after it move up one, and nothing else changes |
| DurakTransitions.KeepCards | cardsharp/durak/transitions.py:134-147 | the cards kept for a deck size are exactly the cards of the full deck whose rank that size keeps |
| DurakTransitions.DurakDeckHasAce | cardsharp/durak/transitions.py:131-147 | every Durak deck holds the ace of hearts, so the bottom card exists |
| DurakTransitions.KeepAppend | cardsharp/durak/transitions.py:134-147 | filtering a deck filters each part of it |
| DurakTransitions.SuitRankKept | cardsharp/durak/transitions.py:134-147 | the count of kept ranks in a suit grows by one exactly at a kept rank |
| DurakTransitions.KeepSuit | cardsharp/durak/transitions.py:134-147 | each suit keeps the same number of cards |
| DurakTransitions.DurakDeckSize | cardsharp/durak/transitions.py:131-147 | a size of 36 or 20 gives a deck of that many cards, and any other size the full 52 |
| DurakTransitions.DurakDeckCards | cardsharp/durak/transitions.py:131-147 | a card is in the Durak deck exactly when it is in the standard deck and its rank is kept for the size |
| DurakTransitions.InitializeGameDeals | cardsharp/durak/transitions.py:115-195 | the new deck is a shuffle of the Durak deck for the rules in force (the given rules, else the old ones); the game waits for players with an empty table and discard pile and round zero; the trump is the bottom card under bottom-card selection and the drawn suit, with no trump card, under random selection |
| DurakTransitions.DealHands | cardsharp/durak/transitions.py:215-224 | one hand per player |
| DurakTransitions.DealSplitsDeck | cardsharp/durak/transitions.py:215-224 | the hands, in seat order, followed by what is left are the deck |
| DurakTransitions.DealHandSizes | cardsharp/durak/transitions.py:216-220 | no hand holds more than six cards, and every hand holds six unless the deck ran out |
| DurakTransitions.DealFromFront | cardsharp/durak/transitions.py:215-224 | the nested `pop(0)` loops deal exactly the hands and the rest of the deck |
| DurakTransitions.HandEntries | cardsharp/durak/transitions.py:233-234 | one entry per card of the hand, with its seat |
| DurakTransitions.Entries | cardsharp/durak/transitions.py:233-234 | every entry pairs a seat with a card in that seat's hand |
| DurakTransitions.EntriesComplete | cardsharp/durak/transitions.py:233-234 | every card in every hand has an entry |
| DurakTransitions.ScanAll | cardsharp/durak/transitions.py:227-245 | the seat chosen is seat 0 or the seat of some card scanned |
| DurakTransitions.FirstAttacker | cardsharp/durak/transitions.py:227-245 | the first attacker sits at the table |
| DurakTransitions.ScanLowestTrump | cardsharp/durak/transitions.py:236-239 | a lowest trump is found exactly when some card is a trump; it is the value of such a card and no trump is lower |
| DurakTransitions.ScanLowestCard | cardsharp/durak/transitions.py:240-245 | with no trumps, a lowest card is found exactly when there are cards; it is the value of a card held by the chosen seat and no card is lower |
| DurakTransitions.FirstAttackerScan | cardsharp/durak/transitions.py:227-245 | the nested scan of `deal_initial_cards` chooses exactly the first attacker |
| DurakTransitions.ScanHand | cardsharp/durak/transitions.py:234-245 | the inner loop over one hand extends the scan by that hand's cards |
| DurakTransitions.Hands | cardsharp/durak/transitions.py:215-224 | the hands, seat by seat |
| DurakTransitions.HeldIsFlatten | cardsharp/durak/transitions.py:215-224 | the cards held are the cards of all hands laid end to end |
| DurakTransitions.Dealt | cardsharp/durak/transitions.py:250-256 | one player per seat |
| DurakTransitions.DealWaits | cardsharp/durak/transitions.py:208-209 | outside the waiting stage, or with fewer than two players, dealing changes nothing |
| DurakTransitions.DealSetsRoles | cardsharp/durak/transitions.py:226-267 | dealing starts the attack with the first attacker moving first and the next seat defending; without the lowest-card rule seat 0 attacks; exactly those seats carry the roles, and only hands and roles change |
| DurakTransitions.DealSplits | cardsharp/durak/transitions.py:211-224 | the dealt hands, then the deck, are the old deck, and each hand holds six cards unless the deck ran out |
| DurakTransitions.DealConserves | cardsharp/durak/transitions.py:198-282 | dealing to empty hands loses no card and makes none |
| DurakTransitions.DealLowestTrumpStarts | cardsharp/durak/transitions.py:228-239 | when anyone holds a trump, the first attacker holds a trump no higher than any other trump dealt |
| DurakTransitions.DealLowestCardStarts | cardsharp/durak/transitions.py:240-245 | when no one holds a trump, the first attacker holds a card no higher than any other card dealt |
| DurakTransitions.Without | cardsharp/durak/transitions.py:344-348 | removing the card at an index leaves the other cards and shortens the hand by one |
| DurakTransitions.LaidMoves | cardsharp/durak/transitions.py:344-365 | laying a card takes it from the player's hand, adds it to the attack cards and hands the turn to the defender in the defence stage; no other hand, the deck or the discard pile changes |
| DurakTransitions.LaidConserves | cardsharp/durak/transitions.py:344-365 | laying a card loses no card and makes none |
| DurakTransitions.AttackRefused | cardsharp/durak/transitions.py:299-342 | an attack is refused outside the attack stage, from an unknown player or a non-attacker, with a bad card index, with a value not on the table once cards are down, or at the attack limit or the defender's hand limit |
| DurakTransitions.AttackAccepted | cardsharp/durak/transitions.py:299-382 | an attack that passes every check lays the card |
| DurakTransitions.ThrowInRefused | cardsharp/durak/transitions.py:509-550 | a throw-in is refused outside the throwing-in stage, from an unknown player, with a bad card index, with a value not on the table (so always on an empty table), or at a limit |
| DurakTransitions.ThrowInAccepted | cardsharp/durak/transitions.py:509-590 | a throw-in that passes every check lays the card |
| DurakTransitions.AttackConserves | cardsharp/durak/transitions.py:285-590 | attacks and throw-ins lose no card and make none |
| DurakTransitions.BeatsIsStrict | cardsharp/durak/transitions.py:425-435 | no card beats itself, beating is never mutual, and only a higher trump beats a trump |
| DurakTransitions.ParriedMoves | cardsharp/durak/transitions.py:440-452 | a defence takes the card from the defender's hand and adds it to the defence cards; nothing else changes |
| DurakTransitions.ParriedConserves | cardsharp/durak/transitions.py:440-452 | a defence loses no card and makes none |
| DurakTransitions.DefenseRefused | cardsharp/durak/transitions.py:399-438 | a defence is refused outside the defence stage, from an unknown player or a non-defender, with a bad card index, with nothing to defend, or with a card that does not beat the undefended card |
| DurakTransitions.DefenseAccepted | cardsharp/durak/transitions.py:440-494 | a valid defence stays in the defence stage while attacks remain open; when it covers the last one the attacker throws in if the rules allow it, and otherwise the round ends with the defence held |
| DurakTransitions.DefenseConserves | cardsharp/durak/transitions.py:385-494 | defending loses no card and makes none |
| DurakTransitions.TakenConserves | cardsharp/durak/transitions.py:763-776 | picking up the table loses no card and makes none |
| DurakTransitions.TakeCardsEffect | cardsharp/durak/transitions.py:737-799 | taking is refused outside the defence stage and from anyone but the defender; otherwise the defender's hand starts with the old hand and the table's cards, nothing is discarded, the table is cleared, the round count goes up and, if a new attack starts, the same attacker leads it; no card is lost or made |
| DurakTransitions.Rotated | cardsharp/durak/transitions.py:636-647 | one player per seat |
| DurakTransitions.SomeoneYetToPass | cardsharp/durak/transitions.py:686-693 | when not everyone has passed, some seat other than the defender's is still in the game |
| DurakTransitions.PassOnLoops | cardsharp/durak/transitions.py:619-634 | the two skip loops pick as attacker the next seat after the attacker that is in the game and not the defender's, and as defender the next seat after that which is in the game |
| DurakTransitions.PassRefused | cardsharp/durak/transitions.py:604-615 | passing is ignored outside the attack and throwing-in stages or from an unknown player, and in the attack stage once cards are down |
| DurakTransitions.PassOnRotates | cardsharp/durak/transitions.py:619-673 | an attacker passing before any card is down hands the attack to a seat in the game that is not the defender's and the defence to a seat in the game; exactly those seats carry the roles, only the passer's count goes up, and no card moves |
| DurakTransitions.ThrowInPassCounts | cardsharp/durak/transitions.py:676-731 | a pass while throwing in counts for the passer; when everyone but the defender has passed the round ends with the defence held; otherwise the turn moves to a seat in the game that is not the defender's; no card moves |
| DurakTransitions.Handed | cardsharp/durak/transitions.py:855-866 | one player per seat |
| DurakTransitions.PassToPlayerRules | cardsharp/durak/transitions.py:802-892 | passing the attack changes the state only when passing is allowed, in the defence stage, from the defender to another player in the game who holds a card of the last defence card's value; then that player defends and acts, the old defender does not defend, and no hand changes; no card moves |
| DurakTransitions.PassToPlayerAccepted | cardsharp/durak/transitions.py:816-875 | conversely, a pass that meets every condition makes the target the defender and the active player, and the old defender no longer defends |
| DurakTransitions.PassToPlayer | cardsharp/durak/transitions.py:802-892 | the loop and checks of `pass_attack_to_player` give exactly the passing transition |
| DurakTransitions.ChangeStageKeepsCards | cardsharp/durak/transitions.py:1033-1060 | changing the stage moves no card and no player, and moving to the end stage ends the game |

## Left out

- Events: every `EventBus` emission and the event payloads are dropped; the transitions return only the new state.
- Randomness, identifiers and time:
  - `random.shuffle` is modelled with an explicit `rng` parameter;
  - `random.choice` of the Durak trump suit, and the draw in `TableConditions`, are given as parameters;
  - uuids are natural-number ids;
  - timestamps are not modelled.
- File input and output are not modelled:
  - `TestSuite.load_from_file` and `save_to_file`;
  - the `open` call of `TestCaseParser.parse_file`, which is modelled on the file's lines.
- `ast.literal_eval` of the rules line and `_parse_rules`' key mapping are not modelled; the rules are kept as text.
- Whitespace is the six ASCII whitespace characters only; Python's other Unicode whitespace is not modelled.
- `GameRecord.to_notation` and `BlackjackNotation.parse_game` (cardsharp/blackjack/notation.py:105-208) are not part of this model.
- `to_dict`, `to_adapter_format`, `get_statistics` and the other reporting helpers are not modelled.
- Floating point: payouts, commissions, `0.8 * max_players` and the shoe's reshuffle point `int(len(cards) * (1 - penetration))` (cardsharp/common/shoe.py:38, `Shoes.ReshufflePoint`) are computed on `real`, with no float rounding before the truncation. `Player` money in `blackjack_actor.dfy` is `int`, as Python's integers with floor division.
- `Player.current_hand` is not defined in cardsharp/blackjack/actor.py; it is modelled as the first hand, which is how the callers use it.
- cardsharp/blackjack/state.py calls player methods (`bets`, `payout(index, amount)`) that the `Player` of actor.py does not have; the settlement is modelled as the sequence of payout calls it makes.
- cardsharp/blackjack/state.py passes the rules to `Dealer.should_hit`, which takes no argument. The model uses the rule and relates it to the dealer's own in `BlackjackRound.DealerRuleIsHitSoft17`.
- Durak values: `DURAK_VALUES` keys the rank enum, in which Jack, Queen and King alias Ten. Ten is therefore worth 13, the King's value, and the model keeps that.
- Dragon Tiger: Jack, Queen and King are Ten, so `card_value` gives 10 for them, never 11 to 13. The model keeps that.
- War compares cards by `rank_value`; `get_war_value` is unused there and is not modelled.
- Baccarat and Dragon Tiger rounds draw from a plain sequence of cards: the shoe's reshuffle is not used, and a round needs six (baccarat) or two (Dragon Tiger) cards.
- DurakRound.EndRound: requires a defender seat and a player still in the game; without them Python's search for the next defender raises or never ends.
- DurakTransitions.PassAttack: requires, for a seated player passing in the attack stage with an empty table, an attacker seat and a player other than the defender still in the game; without them Python's skip loops never end. A pass that completes the throw-in passes requires what `DurakRound.EndRound` requires.
- DurakTransitions.PlayAttackCard: requires a seated defender when the move gets as far as the hand-size limit check, where Python would index with `None`; `DurakTransitions.ThrowInCard` requires the same.
- DurakTransitions.PlayDefenseCard: ends a round with the corrected `DurakRound.EndRound`, not `DurakRound.EndRoundAsWritten`. The two agree except when the written choice of next defender is the attacker's own seat (see Findings and `DurakRound.NextDefenderCorrects`). A defence that ends the round requires what `EndRound` requires.
- DurakTransitions.TakeCards: ends the round with the corrected `DurakRound.EndRound`, as `PlayDefenseCard` does; a take by the defender requires what `EndRound` requires.
- DurakTransitions.ThrowInPassed: ends the round with the corrected `DurakRound.EndRound` once every player has passed, as `PlayDefenseCard` does; so does `DurakTransitions.PassAttack`, which calls it.
- BlackjackRules.ShouldDealerHit: reads the corrected `HandValue` and `IsSoft`, not the values as hand.py computes them (`HandValueAsWritten`, `IsSoftAsWritten`; see Findings). The two values agree on hands of at most two cards and otherwise differ only where the written value busts (`BlackjackHands.AsWrittenOnlyOvercounts`); the soft tests agree on hands with one ace.
- BlackjackRules.DealerDrawingRule: states the dealer's rule on the corrected value and softness, as `ShouldDealerHit` does.
- BlackjackRules.RulesIsBlackjack: reads the corrected value, which on two cards is the written one (`BlackjackHands.AsWrittenAgreesOnTwoCards`).
- Actors.Player.IsBusted: compares the corrected value with 21, so ace, five, six is not a bust here although hand.py scores it 22.
- Actors.Player.DoHit: ends the turn on a bust of the corrected value, as `IsBusted` does.
- Actors.Player.DoubleDown: refuses a busted hand by the corrected value, as `IsBusted` does.
- Actors.DealerShouldHit: reads the corrected value and softness, as `ShouldDealerHit` does.
- Actors.Dealer.ShouldHit: reads the corrected value and softness, as `ShouldDealerHit` does.
- Actors.Player.DoSplit: the model's hands carry no value cache. In cardsharp/blackjack/actor.py:120 the split pops a card straight off the hand's list, so a value cached before the split stays stale in the source; the model has nothing to go stale.
- BlackjackRound.WinnersFor: compares the corrected values of the player's hands and the dealer's.
- BlackjackRound.HandWinners: the loop builds `WinnersFor`, so it uses the corrected values too.
- BlackjackRound.AssignWinners: uses the corrected values, as `WinnersFor` does.
- BlackjackRound.Round.CalculateWinner: uses the corrected dealer value, as `WinnersFor` does.
- ClassicVariant.ClassicResolve: resolves on the corrected values.
- Spanish21Variant.SpanishResolve: resolves on the corrected values.
- Spanish21Variant.EvaluateSpecialHand: tests for 21 with the corrected value. The written value is never 21 where the corrected one is not, but it misses the 21s of hands with ten or more aces: eleven aces and a ten are 21 corrected and 31 as written.
- BlackjackHands.IsBlackjack: reads the corrected value, which on two cards is the written one.
- StateModels.Value: a snapshot hand holds library `Card` objects only, so only the enum-rank branch of `HandState.value` (cardsharp/state/models.py:131-155) and the ace loop (:173-178) are modelled. The other card forms that `cards: List[Any]` admits are not modelled: string cards such as "A♠" or "10♥" (:104-124), objects with a `value` attribute added as is with no ace count (:127-128), string ranks (:157-167) and plain ints (:170-171). The engine's own card class (cardsharp/engine/blackjack.py:554-566) takes the `value` branch with an ace worth 11, so the source scores ace, nine, five as 25 where the model scores 15.
- StateModels.ComputeValue: states the value of library-`Card` hands only; the string, `value`-attribute, string-rank and int branches listed for `StateModels.Value` are not modelled.
- StateModels.IsSoft: tests the enum ace only; the string-rank "A" and string-card branches of `is_soft` (cardsharp/state/models.py:85-91) are not modelled, for the same reason.
- StateTransitions.DealCard: the dealt card is a library `Card`; dealing strings, ints or other card objects into a snapshot hand is not modelled. The hand index is a `nat`: the source checks only `hand_index >= len(player.hands)` (cardsharp/state/transitions.py:269-274), so a negative index such as -1 deals to a hand counted from the end, which the model does not cover.
- Text.ParseInt: reads an optional sign and ASCII digits after trimming whitespace. Python's `int()` also takes other Unicode decimal digits and underscores between digits ("1_000"). `Notation.CardValue` (cardsharp/blackjack/notation.py:68) and `TestCaseNotation.SetValue` (cardsharp/blackjack/notation.py:254) therefore report such text as an error where the source reads a number.
- StateTransitions.RemovePlayer: moves the current index by the corrected `RemovedIndex`, not the written `RemovedIndexAsWritten` (see Findings). They differ only when the current player leaves from a seat before the end: there the source's index drops by one, to -1 from seat 0, which Python reads as the last seat.
- DurakTransitions.RemovePlayer: drops the seat without adjusting the attacker, defender or active indices, as the code does.
- Shoe `burn_cards` and `shuffle_type` are not in cardsharp/common/shoe.py and are not modelled.
- Not part of this model:
  - the async engines, APIs, adapters, user interface, strategy advisors, statistics and verification tooling;
  - high_card;
  - the constants modules beyond the values the modelled code reads;
  - the rest of cardsharp/blackjack/casino.py.

## Findings

| source | as written | input that shows it | evidently intended | confidence | as-written member | corrected member |
|---|---|---|---|---|---|---|
| cardsharp/blackjack/hand.py:96-101 | adds 10 for an ace when the non-ace sum plus 10 is at most 21, without counting the aces themselves | ace, five, six: 11 + 1 + 10 = 22, a bust | count one ace as 11 only when the whole total stays at most 21 (12 here) | not executed | BlackjackHands.AsWrittenBustsAceFiveSix | BlackjackHands.HandValueIsBestTotal |
| cardsharp/blackjack/hand.py:112 | `is_soft` holds when an ace is present and the non-ace sum plus 10 is under 21 | ace, ace, ten: soft as written, though no ace can count as 11 | soft exactly when an ace counts as 11 in the value | not executed | BlackjackHands.SoftAsWrittenDiffers | BlackjackHands.SoftMeansAceCountsEleven |
| cardsharp/blackjack/rules.py:144-150 | `can_insure` compares the dealer's rank with the string "A" | a dealer ace with insurance allowed: never offered | offer insurance when the dealer shows an ace | not executed | BlackjackRules.CanInsureAsWrittenNeverOffers | BlackjackRules.CanInsure |
| cardsharp/state/transitions.py:95-106 | removing a player decrements the current index whenever the removed seat is at or before it, including the current seat itself | three players, current index 0, removing seat 0: index becomes -1 | keep the index on the seat that moves into the removed place | not executed | StateTransitions.RemovedIndexAsWrittenGoesNegative | StateTransitions.RemovedIndexCorrectsOnlyOwnSeat |
| cardsharp/blackjack/variants/spanish21.py:113-123 | the deck loop skips `Rank.TEN`, and since Jack, Queen and King alias Ten it skips them too | `create_deck()`: 36 cards, no ten-valued card, no two-card 21 | remove only the tens: 48 cards with the face cards kept | not executed | Spanish21Variant.DeckAsWrittenLacksTens | Spanish21Variant.SpanishDeckKeepsFaces |
| cardsharp/durak/transitions.py:906-923 | when the defender takes the cards the attacker keeps the attack, and the next defender is the first seat in the game after the old defender, which may be the attacker's own seat | two players, attacker in seat 0, defender in seat 1 takes the cards: seat 0 both attacks and defends | the new defender is the first seat in the game after the old defender that is not the attacker's | not executed | DurakRound.EndRoundAsWrittenSameSeat | DurakRound.NextDefenderCorrects |
