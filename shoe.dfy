/**
 * The multi-deck shoe.  Cards are dealt from the end of `cards` into
 * `dealtCards`; once no more than `reshufflePoint` cards remain, the next deal
 * first gathers the dealt cards back and shuffles.  The shoe never gains or
 * loses a card: `cards` and `dealtCards` together always make up `numDecks`
 * default decks.
 */
module Shoes {
  import opened Wrappers
  import opened Seqs
  import opened Cards
  import opened Decks

  datatype ShoeError = TooFewDecks | PenetrationOutOfRange | NotEnoughCards

  /** All the cards of `numDecks` default decks. */
  function FullShoe(numDecks: nat): (s: seq<Card>)
    ensures |s| == 52 * numDecks
  {
    Repeat(DefaultDeck(), numDecks)
  }

  /**
   * The reshuffle point for a shoe of `n` cards: the integer part of
   * n * (1 - penetration).  With penetration in (0, 1] it is never negative
   * and, for a non-empty shoe, stays below the number of cards.
   */
  function ReshufflePoint(n: nat, penetration: real): (p: int)
    requires 0.0 < penetration <= 1.0
    ensures 0 <= p <= n
    ensures n > 0 ==> p < n
    ensures penetration == 1.0 ==> p == 0
  {
    ReshuffleBounds(n, penetration);
    ((n as real) * (1.0 - penetration)).Floor
  }

  lemma ReshuffleBounds(n: nat, penetration: real)
    requires 0.0 < penetration <= 1.0
    ensures 0.0 <= (n as real) * (1.0 - penetration) <= n as real
    ensures n > 0 ==> (n as real) * (1.0 - penetration) < n as real
  {
    var x := (n as real) * (1.0 - penetration);
    assert x == (n as real) - (n as real) * penetration;
    if n > 0 {
      assert (n as real) * penetration > 0.0;
    }
  }

  class Shoe {
    var numDecks: nat
    var penetration: real
    var cards: seq<Card>
    var dealtCards: seq<Card>
    var reshufflePoint: int

    /** Configuration in range, and no card created or lost. */
    predicate Valid()
      reads this
    {
      && numDecks >= 1
      && 0.0 < penetration <= 1.0
      && 0 <= reshufflePoint
      && multiset(cards) + multiset(dealtCards) == multiset(FullShoe(numDecks))
    }

    /**
     * The constructor.  It rejects fewer than one deck and a penetration
     * outside (0, 1], then fills the shoe with `numDecks` default decks and
     * shuffles it.
     */
    static method Create(numDecks: int, penetration: real, rng: nat -> nat) returns (r: Result<Shoe, ShoeError>)
      ensures numDecks < 1 ==> r == Err(TooFewDecks)
      ensures numDecks >= 1 && !(0.0 < penetration <= 1.0) ==> r == Err(PenetrationOutOfRange)
      ensures numDecks >= 1 && 0.0 < penetration <= 1.0 ==> r.Ok?
      ensures r.Ok? ==>
        && fresh(r.value) && r.value.Valid()
        && r.value.numDecks == numDecks && r.value.penetration == penetration
        && r.value.cards == Shuffled(FullShoe(numDecks), rng)
        && |r.value.cards| == 52 * numDecks && r.value.dealtCards == []
        && r.value.reshufflePoint == ReshufflePoint(52 * numDecks, penetration)
    {
      if numDecks < 1 {
        return Err(TooFewDecks);
      }
      if !(0.0 < penetration <= 1.0) {
        return Err(PenetrationOutOfRange);
      }
      var shoe := new Shoe.Init(numDecks, penetration);
      shoe.InitializeShoe(rng);
      return Ok(shoe);
    }

    constructor Init(numDecks: nat, penetration: real)
      requires numDecks >= 1 && 0.0 < penetration <= 1.0
      ensures this.numDecks == numDecks && this.penetration == penetration
      ensures cards == [] && dealtCards == [] && reshufflePoint == 0
    {
      this.numDecks := numDecks;
      this.penetration := penetration;
      cards := [];
      dealtCards := [];
      reshufflePoint := 0;
    }

    /** Puts `numDecks` fresh default decks in the shoe and shuffles it. */
    method InitializeShoe(rng: nat -> nat)
      requires numDecks >= 1 && 0.0 < penetration <= 1.0 && dealtCards == []
      modifies this
      ensures Valid() && numDecks == old(numDecks) && penetration == old(penetration)
      ensures cards == Shuffled(FullShoe(numDecks), rng) && dealtCards == []
      ensures reshufflePoint == ReshufflePoint(52 * numDecks, penetration)
    {
      cards := [];
      var k := 0;
      while k < numDecks
        invariant 0 <= k <= numDecks
        invariant cards == Repeat(DefaultDeck(), k) && dealtCards == []
        invariant numDecks == old(numDecks) && penetration == old(penetration)
      {
        cards := cards + DefaultDeck();
        k := k + 1;
      }
      assert cards + dealtCards == FullShoe(numDecks);
      Shuffle(rng);
      assert |cards| == 52 * numDecks;
    }

    /** Gathers the dealt cards back, shuffles everything and resets the reshuffle point. */
    method Shuffle(rng: nat -> nat)
      requires 0.0 < penetration <= 1.0
      modifies this
      ensures numDecks == old(numDecks) && penetration == old(penetration)
      ensures cards == Shuffled(old(cards) + old(dealtCards), rng)
      ensures dealtCards == []
      ensures reshufflePoint == ReshufflePoint(|cards|, penetration)
      ensures multiset(cards) == multiset(old(cards)) + multiset(old(dealtCards))
      ensures old(Valid()) ==> Valid()
    {
      cards := cards + dealtCards;
      dealtCards := [];
      ShuffledPermutes(cards, rng);
      cards := ShuffleInPlace(cards, rng);
      reshufflePoint := ReshufflePoint(|cards|, penetration);
    }

    function CardsRemaining(): (n: nat)
      reads this
      ensures n == |cards|
    {
      |cards|
    }

    /**
     * Deals `n` cards.  Asking for more than remain is an error, checked
     * before any reshuffle.  If no more than `reshufflePoint` cards remain the
     * shoe is reshuffled first.  Cards are popped from the end; each one goes
     * to `dealtCards` as well as to the caller.
     */
    method Deal(n: int, rng: nat -> nat) returns (r: Result<Dealt, ShoeError>)
      requires Valid()
      modifies this
      ensures Valid() && numDecks == old(numDecks) && penetration == old(penetration)
      ensures n > old(|cards|) ==>
        (r == Err(NotEnoughCards) && cards == old(cards) && dealtCards == old(dealtCards)
         && reshufflePoint == old(reshufflePoint))
      ensures n <= old(|cards|) ==>
        var reshuffled := old(|cards|) <= old(reshufflePoint);
        var pre := ReadyCards(old(cards), old(dealtCards), old(reshufflePoint), rng);
        var preDealt := ReadyDealt(old(cards), old(dealtCards), old(reshufflePoint));
        var k := if n < 0 then 0 else n;
        && k <= |pre|
        && cards == pre[..|pre| - k]
        && dealtCards == preDealt + Reverse(pre[|pre| - k..])
        && r == Ok(if n == 1 then Single(pre[|pre| - 1]) else Batch(Reverse(pre[|pre| - k..])))
        && reshufflePoint == (if reshuffled then ReshufflePoint(|pre|, penetration) else old(reshufflePoint))
    {
      if n > |cards| {
        return Err(NotEnoughCards);
      }
      ReshuffleIfDue(rng);
      ghost var pre, preDealt := cards, dealtCards;
      var dealt := PopCards(n);
      if n == 1 {
        return Ok(Single(dealt[0]));
      }
      return Ok(Batch(dealt));
    }

    /** The reshuffle that precedes a deal once no more than `reshufflePoint` cards remain. */
    method ReshuffleIfDue(rng: nat -> nat)
      requires Valid()
      modifies this
      ensures Valid() && numDecks == old(numDecks) && penetration == old(penetration)
      ensures var reshuffled := old(|cards|) <= old(reshufflePoint);
        && cards == ReadyCards(old(cards), old(dealtCards), old(reshufflePoint), rng)
        && dealtCards == ReadyDealt(old(cards), old(dealtCards), old(reshufflePoint))
        && reshufflePoint == (if reshuffled then ReshufflePoint(|cards|, penetration) else old(reshufflePoint))
      ensures |cards| >= old(|cards|)
    {
      if |cards| <= reshufflePoint {
        Shuffle(rng);
      }
    }

    /**
     * The dealing loop: pops `n` cards (none when n <= 0) from the end of
     * `cards`, appending each to `dealtCards` and to the returned list.
     * Every card stays in the shoe.
     */
    method PopCards(n: int) returns (dealt: seq<Card>)
      requires n <= |cards|
      modifies this
      ensures var k := if n < 0 then 0 else n;
        && cards == old(cards)[..|old(cards)| - k]
        && dealt == Reverse(old(cards)[|old(cards)| - k..])
        && dealtCards == old(dealtCards) + dealt
      ensures numDecks == old(numDecks) && penetration == old(penetration)
      ensures reshufflePoint == old(reshufflePoint)
      ensures multiset(cards) + multiset(dealtCards) == multiset(old(cards)) + multiset(old(dealtCards))
    {
      ghost var pre := cards;
      var i := 0;
      dealt := [];
      while i < n
        invariant 0 <= i <= |pre| && (n >= 0 ==> i <= n) && (n < 0 ==> i == 0)
        invariant cards == pre[..|pre| - i]
        invariant dealt == Reverse(pre[|pre| - i..])
        invariant dealtCards == old(dealtCards) + dealt
        invariant numDecks == old(numDecks) && penetration == old(penetration)
        invariant reshufflePoint == old(reshufflePoint)
      {
        PopStep(pre, i);
        var card := cards[|cards| - 1];
        cards := cards[..|cards| - 1];
        dealtCards := dealtCards + [card];
        dealt := dealt + [card];
        i := i + 1;
      }
      ReversePermutes(pre[|pre| - i..]);
      assert pre == cards + pre[|pre| - i..];
    }
  }

  /** The cards in the shoe just before a deal: all cards shuffled together once no more than `point` remain. */
  function ReadyCards(cards: seq<Card>, dealtCards: seq<Card>, point: int, rng: nat -> nat): seq<Card> {
    if |cards| <= point then Shuffled(cards + dealtCards, rng) else cards
  }

  /** The dealt cards just before a deal: none once the shoe has been reshuffled. */
  function ReadyDealt(cards: seq<Card>, dealtCards: seq<Card>, point: int): seq<Card> {
    if |cards| <= point then [] else dealtCards
  }

  /** Every card of a full shoe is a suited non-joker card. */
  lemma {:induction false} FullShoeCards(numDecks: nat, c: Card)
    requires c in FullShoe(numDecks)
    ensures WellFormed(c) && c.rank != Joker
  {
    if numDecks > 0 {
      if c in Repeat(DefaultDeck(), numDecks - 1) {
        FullShoeCards(numDecks - 1, c);
      } else {
        DefaultDeckWellFormed(c);
      }
    }
  }

  /** Cards remaining and cards dealt always add up to 52 per deck. */
  lemma ShoeSizeConserved(cards: seq<Card>, dealtCards: seq<Card>, numDecks: nat)
    requires multiset(cards) + multiset(dealtCards) == multiset(FullShoe(numDecks))
    ensures |cards| + |dealtCards| == 52 * numDecks
  {
    assert |multiset(cards) + multiset(dealtCards)| == |multiset(FullShoe(numDecks))|;
  }
}
