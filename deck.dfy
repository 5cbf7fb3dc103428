/** The 52-card deck, the shuffle, and the deck object that deals from the end of its list. */
module Decks {
  import opened Wrappers
  import opened Seqs
  import opened Cards

  /** The thirteen rank entries of one suit; Jack, Queen and King are `Ten`. */
  const SuitRanks: seq<Rank> := [Two, Three, Four, Five, Six, Seven, Eight, Nine, Ten, Jack, Queen, King, Ace]

  function SuitCards(s: Suit): (r: seq<Card>)
    ensures |r| == 13
    ensures forall i :: 0 <= i < 13 ==> r[i] == Card(Some(s), SuitRanks[i])
  {
    seq(13, i requires 0 <= i < 13 => Card(Some(s), SuitRanks[i]))
  }

  /** The default deck: for each suit in order, its thirteen rank entries. */
  function DefaultDeck(): (d: seq<Card>)
    ensures |d| == 52
  {
    SuitCards(Hearts) + SuitCards(Diamonds) + SuitCards(Clubs) + SuitCards(Spades)
  }

  /** The default deck holds 52 cards: position i has suit i / 13 and rank entry i % 13. */
  lemma DefaultDeckLayout(i: nat)
    requires i < 52
    ensures DefaultDeck()[i] == Card(Some(AllSuits[i / 13]), SuitRanks[i % 13])
  {
    var d := DefaultDeck();
    if i < 13 {
      assert d[i] == SuitCards(Hearts)[i];
    } else if i < 26 {
      assert d[i] == SuitCards(Diamonds)[i - 13];
    } else if i < 39 {
      assert d[i] == SuitCards(Clubs)[i - 26];
    } else {
      assert d[i] == SuitCards(Spades)[i - 39];
    }
  }

  /** No default card is a joker, and every one carries a suit. */
  lemma DefaultDeckWellFormed(c: Card)
    requires c in DefaultDeck()
    ensures WellFormed(c) && c.rank != Joker
  {
    var i :| 0 <= i < 52 && DefaultDeck()[i] == c;
    DefaultDeckLayout(i);
  }

  /**
   * The shuffle of the standard library: for i from |s|-1 down to 1, exchange
   * positions i and j where j = rng(i) mod (i + 1).  `rng` stands for the
   * random draws.  `ShuffleDown(s, rng, n)` performs the steps for i < n.
   */
  function ShuffleDown(s: seq<Card>, rng: nat -> nat, n: nat): (r: seq<Card>)
    requires n <= |s|
    ensures |r| == |s|
    ensures forall k :: n <= k < |s| ==> r[k] == s[k]
    decreases n
  {
    if n <= 1 then s
    else ShuffleDown(Swap(s, n - 1, rng(n - 1) % n), rng, n - 1)
  }

  function Shuffled(s: seq<Card>, rng: nat -> nat): (r: seq<Card>)
    ensures |r| == |s|
  {
    ShuffleDown(s, rng, |s|)
  }

  lemma {:induction false} ShuffleDownPermutes(s: seq<Card>, rng: nat -> nat, n: nat)
    requires n <= |s|
    ensures multiset(ShuffleDown(s, rng, n)) == multiset(s)
    decreases n
  {
    if n > 1 {
      SwapPermutes(s, n - 1, rng(n - 1) % n);
      ShuffleDownPermutes(Swap(s, n - 1, rng(n - 1) % n), rng, n - 1);
    }
  }

  /** A shuffle is a permutation: the multiset of cards is unchanged. */
  lemma ShuffledPermutes(s: seq<Card>, rng: nat -> nat)
    ensures multiset(Shuffled(s, rng)) == multiset(s)
  {
    ShuffleDownPermutes(s, rng, |s|);
  }

  /** The shuffle performed in place, as a loop over the positions. */
  method ShuffleInPlace(s: seq<Card>, rng: nat -> nat) returns (r: seq<Card>)
    ensures r == Shuffled(s, rng)
    ensures multiset(r) == multiset(s)
  {
    r := s;
    var i := |s|;
    while i > 1
      invariant 0 <= i <= |s| && |r| == |s|
      invariant ShuffleDown(r, rng, i) == Shuffled(s, rng)
      invariant multiset(r) == multiset(s)
    {
      SwapPermutes(r, i - 1, rng(i - 1) % i);
      r := Swap(r, i - 1, rng(i - 1) % i);
      i := i - 1;
    }
  }

  /** What a deal hands back: one card when one was asked for, else a list. */
  datatype Dealt = Single(card: Card) | Batch(cards: seq<Card>)

  /** The `IndexError` raised by popping from an empty list. */
  datatype DeckError = PopFromEmpty

  class Deck {
    var cards: seq<Card>

    /** With no list the deck is the default deck; otherwise a copy of the given list. */
    constructor (init: Option<seq<Card>>)
      ensures cards == if init.None? then DefaultDeck() else init.value
    {
      cards := if init.None? then DefaultDeck() else init.value;
    }

    function Size(): (n: nat)
      reads this
      ensures n == |cards|
    {
      |cards|
    }

    predicate IsEmpty()
      reads this
      ensures IsEmpty() <==> Size() == 0
    {
      |cards| == 0
    }

    method Shuffle(rng: nat -> nat)
      modifies this
      ensures cards == Shuffled(old(cards), rng)
      ensures multiset(cards) == multiset(old(cards))
    {
      cards := ShuffleInPlace(cards, rng);
    }

    method Reset()
      modifies this
      ensures cards == DefaultDeck() && Size() == 52
    {
      cards := DefaultDeck();
    }

    /**
     * Pops `n` cards from the end.  One card is returned bare; any other
     * count returns the popped cards in the order they were popped (nothing
     * for n <= 0).  Running out part-way raises with the deck already emptied.
     */
    method Deal(n: int) returns (r: Result<Dealt, DeckError>)
      modifies this
      ensures n == 1 && old(|cards|) == 0 ==> r == Err(PopFromEmpty) && cards == []
      ensures n == 1 && old(|cards|) > 0 ==>
        r == Ok(Single(old(cards)[old(|cards|) - 1])) && cards == old(cards)[..old(|cards|) - 1]
      ensures n != 1 && n <= 0 ==> r == Ok(Batch([])) && cards == old(cards)
      ensures n != 1 && 0 < n <= old(|cards|) ==>
        r == Ok(Batch(Reverse(old(cards)[old(|cards|) - n..]))) && cards == old(cards)[..old(|cards|) - n]
      ensures n > old(|cards|) ==> r == Err(PopFromEmpty) && cards == []
      ensures r.Ok? ==> multiset(cards) + multiset(DealtCards(r.value)) == multiset(old(cards))
    {
      if n == 1 {
        if |cards| == 0 {
          return Err(PopFromEmpty);
        }
        var c := cards[|cards| - 1];
        cards := cards[..|cards| - 1];
        assert old(cards) == cards + [c];
        return Ok(Single(c));
      }
      if n <= 0 {
        return Ok(Batch([]));
      }
      ghost var c0 := cards;
      var out: seq<Card> := [];
      var i := 0;
      while i < n
        invariant 0 <= i <= n && i <= |c0|
        invariant cards == c0[..|c0| - i]
        invariant out == Reverse(c0[|c0| - i..])
      {
        if |cards| == 0 {
          return Err(PopFromEmpty);
        }
        PopStep(c0, i);
        out := out + [cards[|cards| - 1]];
        cards := cards[..|cards| - 1];
        i := i + 1;
      }
      ReversePermutes(c0[|c0| - i..]);
      assert c0 == cards + c0[|c0| - i..];
      return Ok(Batch(out));
    }
  }

  /** One more pop extends the popped suffix, read back to front, by the new last card. */
  lemma PopStep(s: seq<Card>, i: nat)
    requires i < |s|
    ensures Reverse(s[|s| - (i + 1)..]) == Reverse(s[|s| - i..]) + [s[|s| - 1 - i]]
    ensures s[..|s| - i][..|s| - i - 1] == s[..|s| - (i + 1)]
  {
    assert s[|s| - (i + 1)..] == [s[|s| - 1 - i]] + s[|s| - i..];
  }

  function DealtCards(d: Dealt): seq<Card> {
    match d
    case Single(c) => [c]
    case Batch(cs) => cs
  }
}
