/**
 * Playing cards: suits, ranks and the card value object.
 *
 * `JACK`, `QUEEN` and `KING` are declared with the value 10, the same as
 * `TEN`, so the enumeration makes them aliases of `TEN`: they compare equal
 * to it and iterating the enumeration yields only eleven ranks.  The model
 * therefore has one constructor per distinct rank value, and Jack, Queen and
 * King are constants naming `Ten`.
 */
module Cards {
  import opened Wrappers

  datatype Suit = Hearts | Diamonds | Clubs | Spades

  /** The distinct ranks, in declaration order. */
  datatype Rank = Two | Three | Four | Five | Six | Seven | Eight | Nine | Ten | Ace | Joker

  const Jack: Rank := Ten
  const Queen: Rank := Ten
  const King: Rank := Ten

  /** The four suits in the order the default deck lists them. */
  const AllSuits: seq<Suit> := [Hearts, Diamonds, Clubs, Spades]

  /** The value each rank is declared with: 2..10 for the number and face ranks, 1 for the ace, 0 for the joker. */
  function RankValue(r: Rank): (v: nat)
    ensures v <= 10
    ensures v == 0 <==> r == Joker
    ensures v == 1 <==> r == Ace
    ensures v == 10 <==> r == Ten
  {
    match r
    case Two => 2
    case Three => 3
    case Four => 4
    case Five => 5
    case Six => 6
    case Seven => 7
    case Eight => 8
    case Nine => 9
    case Ten => 10
    case Ace => 1
    case Joker => 0
  }

  /** Two ranks are the same enumeration member exactly when their values agree. */
  lemma RankValueInjective(a: Rank, b: Rank)
    ensures RankValue(a) == RankValue(b) <==> a == b
  {
  }

  /**
   * `Rank.rank_str`: "Joker" for the joker, the first letter of the member's
   * name for the face ranks (which, being `TEN` itself, gives "T"), and the
   * declared value otherwise, so the ace is written "1".
   */
  function RankText(r: Rank): (s: string)
    ensures r == Joker <==> |s| > 1
    ensures r == Ten <==> s == "T"
    ensures r == Ace <==> s == "1"
  {
    match r
    case Two => "2"
    case Three => "3"
    case Four => "4"
    case Five => "5"
    case Six => "6"
    case Seven => "7"
    case Eight => "8"
    case Nine => "9"
    case Ten => "T"
    case Ace => "1"
    case Joker => "Joker"
  }

  /** Distinct ranks are written differently. */
  lemma RankTextInjective(a: Rank, b: Rank)
    ensures RankText(a) == RankText(b) <==> a == b
  {
  }

  /** A card; the suit is `None` only for a joker. */
  datatype Card = Card(suit: Option<Suit>, rank: Rank)

  datatype CardError = InvalidSuit | InvalidRank

  /**
   * The card constructor.  An argument that is not a `Suit` (resp. `Rank`)
   * instance is passed as `None`.  A joker ignores the suit; otherwise a bad
   * suit is reported before a bad rank.
   */
  function NewCard(suit: Option<Suit>, rank: Option<Rank>): (r: Result<Card, CardError>)
    ensures rank == Some(Joker) ==> r == Ok(Card(None, Joker))
    ensures rank != Some(Joker) && suit.None? ==> r == Err(InvalidSuit)
    ensures rank.None? && suit.Some? ==> r == Err(InvalidRank)
    ensures r.Ok? <==> rank == Some(Joker) || (suit.Some? && rank.Some?)
    ensures r.Ok? && rank != Some(Joker) ==> r.value == Card(suit, rank.value)
  {
    if rank == Some(Joker) then Ok(Card(None, Joker))
    else if suit.None? then Err(InvalidSuit)
    else if rank.None? then Err(InvalidRank)
    else Ok(Card(suit, rank.value))
  }

  /** Every card the constructor builds is well formed: a joker has no suit, any other card has one. */
  predicate WellFormed(c: Card) {
    c.suit.None? <==> c.rank == Joker
  }

  lemma NewCardWellFormed(suit: Option<Suit>, rank: Option<Rank>)
    ensures NewCard(suit, rank).Ok? ==> WellFormed(NewCard(suit, rank).value)
  {
  }

  /** The index a suit has in the hashed key; `None` gets 0. */
  function SuitCode(s: Option<Suit>): (k: nat)
    ensures k < 5
    ensures k == 0 <==> s.None?
  {
    match s
    case None => 0
    case Some(Hearts) => 1
    case Some(Diamonds) => 2
    case Some(Clubs) => 3
    case Some(Spades) => 4
  }

  /** Card equality compares rank and suit. */
  predicate CardEquals(a: Card, b: Card) {
    a.rank == b.rank && a.suit == b.suit
  }

  /** The key the card is hashed by. The source hashes the pair (suit, rank); the model packs the pair into one number instead, so that equal keys mean equal pairs. */
  function HashKey(c: Card): (k: nat)
    ensures k < 55
  {
    SuitCode(c.suit) * 11 + RankValue(c.rank)
  }

  /** Equality agrees with the hash key in both directions, and with equality of the value objects. */
  lemma HashAgreesWithEquality(a: Card, b: Card)
    ensures CardEquals(a, b) <==> a == b
    ensures CardEquals(a, b) <==> HashKey(a) == HashKey(b)
  {
    if HashKey(a) == HashKey(b) {
      assert SuitCode(a.suit) == SuitCode(b.suit) && RankValue(a.rank) == RankValue(b.rank);
      RankValueInjective(a.rank, b.rank);
    }
  }
}
