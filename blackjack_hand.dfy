/**
 * Blackjack hand evaluation.  A hand's value counts every ace as 1 and then
 * counts one ace as 11 when that does not take the total past 21.
 */
module BlackjackHands {
  import opened Wrappers
  import opened Cards

  /** The number of aces in `cards`. */
  function NumAces(cards: seq<Card>): (n: nat)
    ensures n <= |cards|
  {
    if cards == [] then 0
    else NumAces(cards[..|cards| - 1]) + (if cards[|cards| - 1].rank == Ace then 1 else 0)
  }

  /** The sum of the rank values of the cards that are not aces. */
  function NonAceValue(cards: seq<Card>): (v: nat)
    ensures v <= 10 * (|cards| - NumAces(cards))
  {
    if cards == [] then 0
    else NonAceValue(cards[..|cards| - 1]) + (if cards[|cards| - 1].rank == Ace then 0 else RankValue(cards[|cards| - 1].rank))
  }

  /** The total with every ace counted as 1. */
  function HardTotal(cards: seq<Card>): nat {
    NonAceValue(cards) + NumAces(cards)
  }

  /**
   * The hand value as the source computes it: the soft bonus is granted when
   * the non-ace cards plus 10 stay within 21, without counting the aces
   * themselves.
   */
  function HandValueAsWritten(cards: seq<Card>): nat {
    var aces, nonAce := NumAces(cards), NonAceValue(cards);
    nonAce + aces + (if aces > 0 && nonAce + 10 <= 21 then 10 else 0)
  }

  /**
   * The hand value: every ace counts 1, and one ace counts 11 when the
   * whole total then stays within 21.
   */
  function HandValue(cards: seq<Card>): nat {
    var aces, nonAce := NumAces(cards), NonAceValue(cards);
    nonAce + aces + (if aces > 0 && nonAce + aces + 10 <= 21 then 10 else 0)
  }

  /**
   * `HandValue` is the best blackjack total: of all the ways to count each
   * ace as 1 or 11, it is the largest that does not exceed 21, and it is
   * above 21 only when even counting every ace as 1 busts.
   */
  lemma HandValueIsBestTotal(cards: seq<Card>, high: nat)
    requires high <= NumAces(cards)
    ensures HandValue(cards) == HardTotal(cards) || (NumAces(cards) > 0 && HandValue(cards) == HardTotal(cards) + 10)
    ensures HardTotal(cards) + 10 * high <= 21 ==> HardTotal(cards) + 10 * high <= HandValue(cards) <= 21
    ensures HandValue(cards) > 21 <==> HardTotal(cards) > 21
  {
    var aces := NumAces(cards);
    if high >= 2 {
      assert HardTotal(cards) >= aces >= 2;
      assert 10 * high >= 20;
    }
  }

  /** The source's value only ever errs by reporting a bust: it adds the ace bonus to a hand it takes past 21. */
  lemma AsWrittenOnlyOvercounts(cards: seq<Card>)
    ensures HandValueAsWritten(cards) == HandValue(cards)
      || (HandValueAsWritten(cards) == HandValue(cards) + 10 && HandValueAsWritten(cards) > 21)
  {
  }

  /** Ace, five, six: the source scores it 22, a bust, though counting the ace as 1 gives 12. */
  lemma AsWrittenBustsAceFiveSix()
    ensures var h := [Card(Some(Hearts), Ace), Card(Some(Hearts), Five), Card(Some(Hearts), Six)];
      HandValueAsWritten(h) == 22 && HandValue(h) == 12
  {
    var h := [Card(Some(Hearts), Ace), Card(Some(Hearts), Five), Card(Some(Hearts), Six)];
    assert h[..2][..1] == [Card(Some(Hearts), Ace)];
    assert NumAces(h) == 1 && NonAceValue(h) == 11;
  }

  /** The two definitions agree on every hand of at most two cards. */
  lemma {:induction false} AsWrittenAgreesOnTwoCards(cards: seq<Card>)
    requires |cards| <= 2
    ensures HandValueAsWritten(cards) == HandValue(cards)
  {
    if |cards| == 2 {
      TwoCardCounts(cards);
    } else if |cards| == 1 {
      assert cards[..0] == [];
    }
  }

  /** The ace count and non-ace sum of a two-card hand, card by card. */
  lemma TwoCardCounts(cards: seq<Card>)
    requires |cards| == 2
    ensures NumAces(cards) == (if cards[0].rank == Ace then 1 else 0) + (if cards[1].rank == Ace then 1 else 0)
    ensures NonAceValue(cards) == (if cards[0].rank == Ace then 0 else RankValue(cards[0].rank))
                                + (if cards[1].rank == Ace then 0 else RankValue(cards[1].rank))
  {
    assert cards[..1] == [cards[0]];
    assert cards[..1][..0] == [];
  }

  /** Soft as the source tests it: an ace is present and the non-ace cards plus 10 stay below 21. */
  predicate IsSoftAsWritten(cards: seq<Card>) {
    NumAces(cards) > 0 && NonAceValue(cards) + 10 < 21
  }

  /** Soft: an ace is present and is being counted as 11. */
  predicate IsSoft(cards: seq<Card>) {
    NumAces(cards) > 0 && NonAceValue(cards) + NumAces(cards) + 10 <= 21
  }

  /** A hand is soft exactly when its value counts an ace as 11. */
  lemma SoftMeansAceCountsEleven(cards: seq<Card>)
    ensures IsSoft(cards) <==> (NumAces(cards) > 0 && HandValue(cards) == HardTotal(cards) + 10)
    ensures IsSoft(cards) ==> HandValue(cards) <= 21
  {
  }

  /** With one ace the two soft tests agree; ace, ace, ten is soft by the source's test although both aces count 1. */
  lemma SoftAsWrittenDiffers()
    ensures var h := [Card(Some(Hearts), Ace), Card(Some(Spades), Ace), Card(Some(Hearts), Ten)];
      IsSoftAsWritten(h) && !IsSoft(h) && HandValue(h) == 12
    ensures forall cards: seq<Card> :: NumAces(cards) == 1 ==> (IsSoftAsWritten(cards) <==> IsSoft(cards))
  {
    var h := [Card(Some(Hearts), Ace), Card(Some(Spades), Ace), Card(Some(Hearts), Ten)];
    assert h[..2][..1] == [Card(Some(Hearts), Ace)];
    assert NumAces(h) == 2 && NonAceValue(h) == 10;
  }

  /** A hand as the rule checks see it: its cards and whether it came from a split. */
  datatype Hand = Hand(cards: seq<Card>, isSplit: bool)

  /** Blackjack: exactly two cards worth 21, on a hand that is not the result of a split. */
  predicate IsBlackjack(h: Hand) {
    |h.cards| == 2 && HandValue(h.cards) == 21 && !h.isSplit
  }

  /** A two-card hand is worth 21 exactly when it is an ace and a ten-valued card. */
  lemma BlackjackIsAceAndTen(h: Hand)
    requires |h.cards| == 2
    ensures IsBlackjack(h) <==>
      (!h.isSplit && ((h.cards[0].rank == Ace && h.cards[1].rank == Ten) || (h.cards[0].rank == Ten && h.cards[1].rank == Ace)))
  {
    TwoCardCounts(h.cards);
  }

  predicate CanDouble(h: Hand) {
    |h.cards| == 2
  }

  predicate CanSplit(h: Hand) {
    |h.cards| == 2 && h.cards[0].rank == h.cards[1].rank
  }

  /** `s` without its first occurrence of `c` (the caller has checked that `c` occurs). */
  function RemoveFirst(s: seq<Card>, c: Card): (r: seq<Card>)
    requires c in s
    ensures |r| == |s| - 1
    ensures multiset(r) == multiset(s) - multiset{c}
  {
    assert s == [s[0]] + s[1..];
    if s[0] == c then s[1..]
    else [s[0]] + RemoveFirst(s[1..], c)
  }

  /** The `ValueError` raised when removing a card the hand does not hold. */
  datatype HandError = CardNotInHand

  /**
   * A blackjack hand that caches its value.  Adding or removing a card
   * drops the cache, so a reported value always matches the cards held.
   */
  class BlackjackHand {
    var cards: seq<Card>
    var isSplit: bool
    var cachedValue: Option<nat>

    predicate Valid()
      reads this
    {
      cachedValue.Some? ==> cachedValue.value == HandValueAsWritten(cards)
    }

    function View(): Hand
      reads this
    {
      Hand(cards, isSplit)
    }

    constructor (isSplit: bool)
      ensures Valid() && cards == [] && this.isSplit == isSplit && cachedValue == None
    {
      cards := [];
      this.isSplit := isSplit;
      cachedValue := None;
    }

    method AddCard(c: Card)
      requires Valid()
      modifies this
      ensures Valid() && cards == old(cards) + [c] && isSplit == old(isSplit) && cachedValue == None
    {
      cards := cards + [c];
      cachedValue := None;
    }

    method RemoveCard(c: Card) returns (r: Result<(), HandError>)
      requires Valid()
      modifies this
      ensures Valid() && isSplit == old(isSplit)
      ensures c !in old(cards) ==> r == Err(CardNotInHand) && cards == old(cards) && cachedValue == old(cachedValue)
      ensures c in old(cards) ==> r == Ok(()) && cards == RemoveFirst(old(cards), c) && cachedValue == None
    {
      if c !in cards {
        return Err(CardNotInHand);
      }
      cards := RemoveFirst(cards, c);
      cachedValue := None;
      return Ok(());
    }

    /** The value, taken from the cache when present and cached otherwise. */
    method Value() returns (v: nat)
      requires Valid()
      modifies this
      ensures Valid() && cards == old(cards) && isSplit == old(isSplit)
      ensures v == HandValueAsWritten(cards) && cachedValue == Some(v)
    {
      if cachedValue.Some? {
        return cachedValue.value;
      }
      v := HandValueAsWritten(cards);
      cachedValue := Some(v);
    }
  }
}
