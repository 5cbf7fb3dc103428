/**
 * A baccarat hand: two to nine count their face value, an ace counts 1,
 * tens, picture cards and jokers count nothing, and the hand is worth the
 * last digit of the total.
 */
module BaccaratHands {
  import opened Cards

  /** A card's point value in baccarat. */
  function Points(r: Rank): (v: nat)
    ensures v <= 9
    ensures v == 0 <==> r == Ten || r == Joker
    ensures r == Ace ==> v == 1
    ensures r != Ten && r != Joker ==> v == RankValue(r)
  {
    match r
    case Two => 2 case Three => 3 case Four => 4 case Five => 5
    case Six => 6 case Seven => 7 case Eight => 8 case Nine => 9
    case Ace => 1
    case _ => 0
  }

  /** The sum of the point values of the cards. */
  function Total(cards: seq<Card>): (t: nat)
    ensures t <= 9 * |cards|
  {
    if cards == [] then 0 else Total(cards[..|cards| - 1]) + Points(cards[|cards| - 1].rank)
  }

  /** The hand's value: the last digit of the total. */
  function Value(cards: seq<Card>): (v: nat)
    ensures v <= 9 && v == Total(cards) % 10
  {
    Total(cards) % 10
  }

  /** Adding a card adds its points to the value, modulo 10. */
  lemma ValueAfterCard(cards: seq<Card>, c: Card)
    ensures Value(cards + [c]) == (Value(cards) + Points(c.rank)) % 10
  {
    assert (cards + [c])[..|cards|] == cards;
    var t := Total(cards);
    assert Total(cards + [c]) == t + Points(c.rank);
    LastDigitOfSum(t, Points(c.rank));
  }

  lemma LastDigitOfSum(t: nat, p: nat)
    ensures (t + p) % 10 == (t % 10 + p) % 10
  {
    var q := t / 10;
    assert t == 10 * q + t % 10;
    assert t + p == 10 * q + (t % 10 + p);
  }

  /** A natural: exactly two cards worth 8 or 9. */
  predicate IsNatural(cards: seq<Card>) {
    |cards| == 2 && (Value(cards) == 8 || Value(cards) == 9)
  }

  /** The point value of the third card, or -1 when there is none. */
  function ThirdCardValue(cards: seq<Card>): (v: int)
    ensures |cards| < 3 <==> v == -1
    ensures |cards| >= 3 ==> 0 <= v <= 9 && v == Points(cards[2].rank)
  {
    if |cards| >= 3 then Points(cards[2].rank) else -1
  }

  class BaccaratHand {
    var cards: seq<Card>

    constructor()
      ensures cards == []
    {
      cards := [];
    }

    method AddCard(c: Card)
      modifies this
      ensures cards == old(cards) + [c]
      ensures CardCount() == old(CardCount()) + 1
    {
      cards := cards + [c];
    }

    function CardCount(): (n: nat)
      reads this
      ensures n == |cards|
    {
      |cards|
    }

    /** The value, summing card by card and keeping the last digit. */
    method HandValue() returns (v: nat)
      ensures v == Value(cards) && v <= 9
    {
      var total := 0;
      var i := 0;
      while i < |cards|
        invariant 0 <= i <= |cards|
        invariant total == Total(cards[..i])
      {
        assert cards[..i + 1][..i] == cards[..i];
        total := total + Points(cards[i].rank);
        i := i + 1;
      }
      assert cards[..i] == cards;
      v := total % 10;
    }
  }
}
