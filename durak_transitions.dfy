/**
 * The transition engine of Durak: every move is a function from one game
 * state to the next, and a move the rules do not allow returns the state
 * it was given.
 */
module DurakTransitions {
  import opened Wrappers
  import opened Cards
  import opened DurakState
  import opened DurakRound
  import Decks

  // ---------------------------------------------------------------------------
  // Finding players
  // ---------------------------------------------------------------------------

  /** The seat of the first player with this id, if any. */
  function FindPlayer(players: seq<PlayerState>, id: nat): (r: Option<nat>)
    ensures r.Some? ==> r.value < |players| && players[r.value].id == id
    ensures r.Some? ==> forall k :: 0 <= k < r.value ==> players[k].id != id
    ensures r.None? <==> forall k :: 0 <= k < |players| ==> players[k].id != id
  {
    if players == [] then None
    else if players[0].id == id then Some(0)
    else
      match FindPlayer(players[1..], id)
      case None => None
      case Some(k) => Some(k + 1)
  }

  /** The search loop every move starts with. */
  method FindPlayerIndex(players: seq<PlayerState>, id: nat) returns (r: Option<nat>)
    ensures r == FindPlayer(players, id)
  {
    for i := 0 to |players|
      invariant forall k :: 0 <= k < i ==> players[k].id != id
    {
      if players[i].id == id {
        return Some(i);
      }
    }
    return None;
  }

  /** The seat of the last player with this id, if any. */
  function FindLast(players: seq<PlayerState>, id: nat): (r: Option<nat>)
    ensures r.Some? ==> r.value < |players| && players[r.value].id == id
    ensures r.Some? ==> forall k :: r.value < k < |players| ==> players[k].id != id
    ensures r.None? <==> forall k :: 0 <= k < |players| ==> players[k].id != id
  {
    if players == [] then None
    else if players[|players| - 1].id == id then Some(|players| - 1)
    else FindLast(players[..|players| - 1], id)
  }

  /**
   * The search loop of `pass_attack_to_player`: one pass over the table
   * records the last seat of the defender's id and, at the other seats, the
   * last seat of the target's id.
   */
  method FindDefenderAndTarget(players: seq<PlayerState>, id: nat, target: nat) returns (d: Option<nat>, t: Option<nat>)
    ensures d == FindLast(players, id)
    ensures t == if target == id then None else FindLast(players, target)
  {
    d, t := None, None;
    for i := 0 to |players|
      invariant d == FindLast(players[..i], id)
      invariant t == if target == id then None else FindLast(players[..i], target)
    {
      assert players[..i + 1][..i] == players[..i];
      if players[i].id == id {
        d := Some(i);
      } else if players[i].id == target {
        t := Some(i);
      }
    }
    assert players[..|players|] == players;
  }

  // ---------------------------------------------------------------------------
  // Joining and leaving
  // ---------------------------------------------------------------------------

  /** `add_player`: a player with an empty hand and no role joins at the end of the table; the id is a parameter. */
  function AddPlayer(s: GameState, id: nat, name: string): GameState {
    s.(players := s.players + [PlayerState(id, name, [], false, false, false, 0)])
  }

  /** `remove_player`: the first player with the id leaves; the role indices are kept as they were. */
  function RemovePlayer(s: GameState, id: nat): GameState {
    match FindPlayer(s.players, id)
    case None => s
    case Some(i) => s.(players := s.players[..i] + s.players[i + 1..])
  }

  /** A player with a fresh id is found at the new last seat, and leaving again restores the state. */
  lemma AddThenRemove(s: GameState, id: nat, name: string)
    requires forall k :: 0 <= k < |s.players| ==> s.players[k].id != id
    ensures FindPlayer(AddPlayer(s, id, name).players, id) == Some(|s.players|)
    ensures RemovePlayer(AddPlayer(s, id, name), id) == s
  {
    var r := AddPlayer(s, id, name);
    assert forall k :: 0 <= k < |s.players| ==> r.players[k].id != id;
    assert r.players[|s.players|].id == id;
    assert r.players[..|s.players|] == s.players;
    assert r.players[|s.players| + 1..] == [];
  }

  /** A new player brings no card. */
  lemma AddPlayerConserves(s: GameState, id: nat, name: string)
    ensures AllCards(AddPlayer(s, id, name)) == AllCards(s)
  {
    HeldAppend(s.players, PlayerState(id, name, [], false, false, false, 0));
  }

  /** Removing changes only the player list, which loses exactly the first player with the id; nobody else moves relative to the others. */
  lemma RemovePlayerEffect(s: GameState, id: nat)
    ensures FindPlayer(s.players, id).None? ==> RemovePlayer(s, id) == s
    ensures var r := RemovePlayer(s, id);
      && r == s.(players := r.players)
      && (FindPlayer(s.players, id).Some? ==>
            var i := FindPlayer(s.players, id).value;
            && multiset(r.players) + multiset{s.players[i]} == multiset(s.players)
            && r.players[..i] == s.players[..i] && r.players[i..] == s.players[i + 1..])
  {
    if FindPlayer(s.players, id).Some? {
      var i := FindPlayer(s.players, id).value;
      assert s.players == s.players[..i] + [s.players[i]] + s.players[i + 1..];
    }
  }

  // ---------------------------------------------------------------------------
  // A new game
  // ---------------------------------------------------------------------------

  /** The ranks a Durak deck keeps: 36 cards drop two to five, 20 cards keep the ten-valued ranks and the ace, other sizes keep all. */
  predicate KeptRank(size: int, r: Rank) {
    if size == 36 then r !in {Two, Three, Four, Five}
    else if size == 20 then r == Ten || r == Ace
    else true
  }

  /** The cards of a deck with a kept rank, in order. */
  function KeepCards(size: int, cards: seq<Card>): (r: seq<Card>)
    ensures forall c :: c in r <==> c in cards && KeptRank(size, c.rank)
    ensures |r| <= |cards|
  {
    if cards == [] then []
    else
      var init := KeepCards(size, cards[..|cards| - 1]);
      var last := cards[|cards| - 1];
      assert cards == cards[..|cards| - 1] + [last];
      if KeptRank(size, last.rank) then init + [last] else init
  }

  /** The deck of `initialize_game` before shuffling. */
  function DurakDeck(size: int): seq<Card> {
    KeepCards(size, Decks.DefaultDeck())
  }

  /** Every Durak deck holds the ace of hearts, so it is never empty. */
  lemma DurakDeckHasAce(size: int)
    ensures Card(Some(Hearts), Ace) in DurakDeck(size)
  {
    Decks.DefaultDeckLayout(12);
    assert Decks.DefaultDeck()[12] == Card(Some(Hearts), Ace);
  }

  lemma {:induction false} KeepAppend(size: int, a: seq<Card>, b: seq<Card>)
    ensures KeepCards(size, a + b) == KeepCards(size, a) + KeepCards(size, b)
    decreases |b|
  {
    if b == [] {
      assert a + b == a;
    } else {
      var n := |b| - 1;
      var init, last, ab := b[..n], b[n], a + b;
      assert ab[..|ab| - 1] == a + init && ab[|ab| - 1] == last;
      KeepAppend(size, a, init);
      KeepLast(size, ab);
      KeepLast(size, b);
    }
  }

  lemma KeepLast(size: int, cards: seq<Card>)
    requires cards != []
    ensures var last := cards[|cards| - 1];
      KeepCards(size, cards) == KeepCards(size, cards[..|cards| - 1]) + if KeptRank(size, last.rank) then [last] else []
  {
  }

  /** How many of the first k rank entries of a suit a deck of this size keeps. */
  function KeptAmong(size: int, k: nat): nat {
    if size == 36 then (if k <= 4 then 0 else k - 4)
    else if size == 20 then (if k <= 8 then 0 else k - 8)
    else k
  }

  lemma SuitRankKept(size: int, k: nat)
    requires k < 13
    ensures KeptRank(size, Decks.SuitRanks[k]) <==> KeptAmong(size, k + 1) == KeptAmong(size, k) + 1
  {
  }

  /** A 36-card deck keeps nine cards of each suit, a 20-card deck five, any other size all thirteen. */
  lemma KeepSuit(size: int, x: Suit)
    ensures |KeepCards(size, Decks.SuitCards(x))| == KeptAmong(size, 13)
  {
    var cards := Decks.SuitCards(x);
    for k := 0 to 13
      invariant |KeepCards(size, cards[..k])| == KeptAmong(size, k)
    {
      SuitRankKept(size, k);
      KeepStep(size, cards, k);
    }
    assert cards[..13] == cards;
  }

  /** Filtering one more card of a sequence adds it exactly when its rank is kept. */
  lemma KeepStep(size: int, cards: seq<Card>, k: nat)
    requires k < |cards|
    ensures |KeepCards(size, cards[..k + 1])| == |KeepCards(size, cards[..k])| + (if KeptRank(size, cards[k].rank) then 1 else 0)
  {
    assert cards[..k + 1][..k] == cards[..k];
  }

  /** The Durak deck has 36 cards for size 36, 20 for size 20, and all 52 otherwise. */
  lemma DurakDeckSize(size: int)
    ensures |DurakDeck(size)| == if size == 36 || size == 20 then size else 52
  {
    var h, d, c, s := Decks.SuitCards(Hearts), Decks.SuitCards(Diamonds), Decks.SuitCards(Clubs), Decks.SuitCards(Spades);
    KeepAppend(size, h + d + c, s);
    KeepAppend(size, h + d, c);
    KeepAppend(size, h, d);
    KeepSuit(size, Hearts);
    KeepSuit(size, Diamonds);
    KeepSuit(size, Clubs);
    KeepSuit(size, Spades);
  }

  /** A card is in the Durak deck exactly when it is in the standard deck and its rank is kept. */
  lemma DurakDeckCards(size: int, c: Card)
    ensures c in DurakDeck(size) <==> c in Decks.DefaultDeck() && KeptRank(size, c.rank)
  {
  }

  /**
   * `initialize_game`: the given rules, or the state's own, a shuffled
   * Durak deck, and the trump: the suit of the bottom card under
   * `"bottom_card"`, a drawn suit under `"random"`, none otherwise.  The
   * shuffle's random numbers and the drawn suit are parameters.
   */
  function InitializeGame(s: GameState, rules: Option<Rules>, rng: nat -> nat, drawnSuit: Suit): GameState {
    var rs := if rules.Some? then rules.value else s.rules;
    DurakDeckHasAce(rs.deckSize);
    var deck := Decks.Shuffled(DurakDeck(rs.deckSize), rng);
    var bottom := deck[|deck| - 1];
    s.(deck := deck,
       trumpSuit := if rs.trumpSelection == "bottom_card" then bottom.suit
                    else if rs.trumpSelection == "random" then Some(drawnSuit) else None,
       trumpCard := if rs.trumpSelection == "bottom_card" then Some(bottom) else None,
       rules := rs, stage := WaitingForPlayers, currentRound := 0, loserId := None,
       table := EmptyTable, discard := [])
  }

  /** A new game holds the cards of its Durak deck in some order, waits for players, and takes its trump from the bottom card or the drawn suit. */
  lemma InitializeGameDeals(s: GameState, rules: Option<Rules>, rng: nat -> nat, drawnSuit: Suit)
    ensures var r := InitializeGame(s, rules, rng, drawnSuit);
      && multiset(r.deck) == multiset(DurakDeck(r.rules.deckSize))
      && (rules.Some? ==> r.rules == rules.value) && (rules.None? ==> r.rules == s.rules)
      && r.stage == WaitingForPlayers && r.table == EmptyTable && r.discard == [] && r.currentRound == 0
      && r.players == s.players
      && (r.rules.trumpSelection == "bottom_card" ==>
            r.deck != [] && r.trumpCard == Some(r.deck[|r.deck| - 1]) && r.trumpSuit == r.trumpCard.value.suit)
      && (r.rules.trumpSelection == "random" ==> r.trumpSuit == Some(drawnSuit) && r.trumpCard == None)
  {
    var rs := if rules.Some? then rules.value else s.rules;
    Decks.ShuffledPermutes(DurakDeck(rs.deckSize), rng);
  }

  // ---------------------------------------------------------------------------
  // Dealing
  // ---------------------------------------------------------------------------

  /** The hands of the first n players, each taking up to six cards from the front of the deck in turn, and what is left of the deck. */
  function DealHands(deck: seq<Card>, n: nat): (r: (seq<seq<Card>>, seq<Card>))
    ensures |r.0| == n
  {
    if n == 0 then ([], deck)
    else
      var prev := DealHands(deck, n - 1);
      var k := if |prev.1| < 6 then |prev.1| else 6;
      (prev.0 + [prev.1[..k]], prev.1[k..])
  }

  function Flatten(hands: seq<seq<Card>>): seq<Card> {
    if hands == [] then [] else Flatten(hands[..|hands| - 1]) + hands[|hands| - 1]
  }

  /** The dealt hands, one after the other, followed by the rest of the deck, are the deck. */
  lemma {:induction false} DealSplitsDeck(deck: seq<Card>, n: nat)
    ensures Flatten(DealHands(deck, n).0) + DealHands(deck, n).1 == deck
  {
    if n > 0 {
      DealSplitsDeck(deck, n - 1);
      var prev := DealHands(deck, n - 1);
      var r := DealHands(deck, n);
      var k := if |prev.1| < 6 then |prev.1| else 6;
      assert r.0[..n - 1] == prev.0;
      assert Flatten(r.0) == Flatten(prev.0) + prev.1[..k];
      assert prev.1[..k] + prev.1[k..] == prev.1;
    }
  }

  /** Each hand has six cards unless the deck ran out. */
  lemma {:induction false} DealHandSizes(deck: seq<Card>, n: nat)
    ensures forall i :: 0 <= i < n ==> |DealHands(deck, n).0[i]| <= 6
    ensures forall i :: 0 <= i < n ==> |DealHands(deck, n).0[i]| == 6 || DealHands(deck, n).1 == []
  {
    if n > 0 {
      DealHandSizes(deck, n - 1);
      var prev := DealHands(deck, n - 1);
      var r := DealHands(deck, n);
      var k := if |prev.1| < 6 then |prev.1| else 6;
      forall i | 0 <= i < n
        ensures |r.0[i]| <= 6 && (|r.0[i]| == 6 || r.1 == [])
      {
        assert r == (prev.0 + [prev.1[..k]], prev.1[k..]);
        if i < n - 1 {
          assert r.0[i] == prev.0[i];
          assert |prev.0[i]| == 6 || prev.1 == [];
        } else {
          assert r.0[i] == prev.1[..k];
        }
      }
    }
  }

  /** The dealing loops of `deal_initial_cards`. */
  method DealFromFront(deck: seq<Card>, n: nat) returns (hands: seq<seq<Card>>, rest: seq<Card>)
    ensures (hands, rest) == DealHands(deck, n)
  {
    hands, rest := [], deck;
    for i := 0 to n
      invariant (hands, rest) == DealHands(deck, i)
    {
      var hand := [];
      var count := if |rest| < 6 then |rest| else 6;
      ghost var before := rest;
      for j := 0 to count
        invariant hand == before[..j] && rest == before[j..]
      {
        assert before[..j + 1] == before[..j] + [rest[0]];
        hand := hand + [rest[0]];
        rest := rest[1..];
      }
      hands := hands + [hand];
    }
  }

  /** The scan for the first attacker: the lowest trump seen, the lowest card seen while no trump has been, and the seat holding it. */
  datatype Scan = Scan(lowTrump: Option<nat>, lowCard: Option<nat>, first: nat)

  const Unscanned := Scan(None, None, 0)

  /** One card of the scan: a lower trump takes the lead, and so does a lower card as long as no trump has been seen. */
  function Consider(sc: Scan, seat: nat, c: Card, trump: Option<Suit>): Scan {
    var v := DurakValue(c.rank);
    if c.suit == trump then
      if sc.lowTrump.None? || v < sc.lowTrump.value then sc.(lowTrump := Some(v), first := seat) else sc
    else if sc.lowTrump.None? && (sc.lowCard.None? || v < sc.lowCard.value) then sc.(lowCard := Some(v), first := seat)
    else sc
  }

  /** The cards of one hand, each with its seat. */
  function HandEntries(seat: nat, hand: seq<Card>): (es: seq<(nat, Card)>)
    ensures |es| == |hand| && forall j :: 0 <= j < |hand| ==> es[j] == (seat, hand[j])
  {
    seq(|hand|, j requires 0 <= j < |hand| => (seat, hand[j]))
  }

  /** Every dealt card with its seat, seat by seat. */
  function Entries(hands: seq<seq<Card>>): (es: seq<(nat, Card)>)
    ensures forall e :: e in es ==> e.0 < |hands| && e.1 in hands[e.0]
  {
    if hands == [] then []
    else Entries(hands[..|hands| - 1]) + HandEntries(|hands| - 1, hands[|hands| - 1])
  }

  lemma {:induction false} EntriesComplete(hands: seq<seq<Card>>)
    ensures forall i, c :: 0 <= i < |hands| && c in hands[i] ==> (i, c) in Entries(hands)
  {
    if hands != [] {
      var n := |hands| - 1;
      EntriesComplete(hands[..n]);
      forall i, c | 0 <= i < |hands| && c in hands[i]
        ensures (i, c) in Entries(hands)
      {
        if i < n {
          assert hands[..n][i] == hands[i];
        } else {
          var j :| 0 <= j < |hands[n]| && hands[n][j] == c;
          assert HandEntries(n, hands[n])[j] == (i, c);
        }
      }
    }
  }

  /** The scan over a list of cards with their seats. */
  function ScanAll(es: seq<(nat, Card)>, trump: Option<Suit>): (r: Scan)
    ensures r.first == 0 || exists e :: e in es && e.0 == r.first
  {
    if es == [] then Unscanned
    else
      var e := es[|es| - 1];
      Consider(ScanAll(es[..|es| - 1], trump), e.0, e.1, trump)
  }

  /** The seat that attacks first when the lowest card starts. */
  function FirstAttacker(hands: seq<seq<Card>>, trump: Option<Suit>): (r: nat)
    ensures hands != [] ==> r < |hands|
  {
    ScanAll(Entries(hands), trump).first
  }

  /** The scan finds a trump exactly when there is one, and then the lowest, at the seat it names. */
  lemma {:induction false} ScanLowestTrump(es: seq<(nat, Card)>, trump: Option<Suit>)
    ensures ScanAll(es, trump).lowTrump.Some? <==> exists e :: e in es && e.1.suit == trump
    ensures ScanAll(es, trump).lowTrump.Some? ==>
              exists e :: e in es && e.0 == ScanAll(es, trump).first && e.1.suit == trump
                          && DurakValue(e.1.rank) == ScanAll(es, trump).lowTrump.value
    ensures ScanAll(es, trump).lowTrump.Some? ==>
              forall e :: e in es && e.1.suit == trump ==> ScanAll(es, trump).lowTrump.value <= DurakValue(e.1.rank)
  {
    if es != [] {
      var n := |es| - 1;
      ScanLowestTrump(es[..n], trump);
      var p := ScanAll(es[..n], trump);
      var e := es[n];
      assert es == es[..n] + [e];
      if p.lowTrump.Some? && !(e.1.suit == trump && DurakValue(e.1.rank) < p.lowTrump.value) {
        var w :| w in es[..n] && w.0 == p.first && w.1.suit == trump && DurakValue(w.1.rank) == p.lowTrump.value;
        assert w in es;
      }
    }
  }

  /** With no trump among the cards, the scan finds the lowest card, at the seat it names. */
  lemma {:induction false} ScanLowestCard(es: seq<(nat, Card)>, trump: Option<Suit>)
    requires forall e :: e in es ==> e.1.suit != trump
    ensures ScanAll(es, trump).lowCard.Some? <==> es != []
    ensures ScanAll(es, trump).lowCard.Some? ==>
              exists e :: e in es && e.0 == ScanAll(es, trump).first && DurakValue(e.1.rank) == ScanAll(es, trump).lowCard.value
    ensures ScanAll(es, trump).lowCard.Some? ==>
              forall e :: e in es ==> ScanAll(es, trump).lowCard.value <= DurakValue(e.1.rank)
  {
    if es != [] {
      var n := |es| - 1;
      ScanLowestCard(es[..n], trump);
      ScanLowestTrump(es[..n], trump);
      var p := ScanAll(es[..n], trump);
      var e := es[n];
      assert es == es[..n] + [e];
      if p.lowCard.Some? && DurakValue(e.1.rank) >= p.lowCard.value {
        var w :| w in es[..n] && w.0 == p.first && DurakValue(w.1.rank) == p.lowCard.value;
        assert w in es;
      }
    }
  }

  /** The scanning loops of `deal_initial_cards`. */
  method FirstAttackerScan(hands: seq<seq<Card>>, trump: Option<Suit>) returns (first: nat)
    ensures first == FirstAttacker(hands, trump)
  {
    var sc := Unscanned;
    for i := 0 to |hands|
      invariant sc == ScanAll(Entries(hands[..i]), trump)
    {
      sc := ScanHand(sc, Entries(hands[..i]), i, hands[i], trump);
      assert hands[..i + 1][..i] == hands[..i];
    }
    assert hands[..|hands|] == hands;
    first := sc.first;
  }

  /** The inner loop: the cards of one hand. */
  method ScanHand(sc: Scan, ghost before: seq<(nat, Card)>, seat: nat, hand: seq<Card>, trump: Option<Suit>) returns (r: Scan)
    requires sc == ScanAll(before, trump)
    ensures r == ScanAll(before + HandEntries(seat, hand), trump)
  {
    r := sc;
    assert before + HandEntries(seat, hand[..0]) == before;
    for j := 0 to |hand|
      invariant r == ScanAll(before + HandEntries(seat, hand[..j]), trump)
    {
      assert before + HandEntries(seat, hand[..j + 1]) == (before + HandEntries(seat, hand[..j])) + [(seat, hand[j])];
      r := Consider(r, seat, hand[j], trump);
    }
    assert hand[..|hand|] == hand;
  }

  /** The hands of the players, seat by seat. */
  function Hands(players: seq<PlayerState>): (r: seq<seq<Card>>)
    ensures |r| == |players| && forall i :: 0 <= i < |players| ==> r[i] == players[i].hand
  {
    seq(|players|, i requires 0 <= i < |players| => players[i].hand)
  }

  lemma {:induction false} HeldIsFlatten(players: seq<PlayerState>)
    ensures Held(players) == multiset(Flatten(Hands(players)))
  {
    if players != [] {
      var n := |players| - 1;
      HeldIsFlatten(players[..n]);
      assert Hands(players)[..n] == Hands(players[..n]);
    }
  }

  /** The players after the deal: the dealt hands, and the roles set. */
  function Dealt(players: seq<PlayerState>, hands: seq<seq<Card>>, attacker: nat, defender: nat): (r: seq<PlayerState>)
    requires |hands| == |players|
    ensures |r| == |players|
  {
    seq(|players|, i requires 0 <= i < |players| =>
      players[i].(hand := hands[i], isAttacker := i == attacker, isDefender := i == defender))
  }

  /**
   * `deal_initial_cards`: once at least two players wait, each takes up to
   * six cards from the front of the deck, replacing the hand; the first
   * attacker is the holder of the lowest trump (or of the lowest card if
   * no trump was dealt) when the lowest card starts, else the first seat;
   * the next seat defends.
   */
  function DealInitialCards(s: GameState): GameState {
    if s.stage != WaitingForPlayers || |s.players| < 2 then s
    else
      var n := |s.players|;
      var dealt := DealHands(s.deck, n);
      var first := if s.rules.lowestCardStarts then FirstAttacker(dealt.0, s.trumpSuit) else 0;
      var defender := (first + 1) % n;
      s.(players := Dealt(s.players, dealt.0, first, defender), deck := dealt.1,
         attackerIndex := Some(first), defenderIndex := Some(defender), activeIndex := Some(first), stage := Attack)
  }

  /** Dealing waits for at least two players in the waiting stage. */
  lemma DealWaits(s: GameState)
    requires s.stage != WaitingForPlayers || |s.players| < 2
    ensures DealInitialCards(s) == s
  {
  }

  /** After the deal the attacker acts first, the next seat defends, exactly those two seats hold the roles, and only hands and roles change. */
  lemma DealSetsRoles(s: GameState)
    requires s.stage == WaitingForPlayers && |s.players| >= 2
    ensures var r := DealInitialCards(s);
      && r.stage == Attack && |r.players| == |s.players|
      && r.attackerIndex.Some? && r.attackerIndex.value < |s.players| && r.activeIndex == r.attackerIndex
      && r.defenderIndex == Some((r.attackerIndex.value + 1) % |s.players|)
      && (!s.rules.lowestCardStarts ==> r.attackerIndex == Some(0))
      && (forall i :: 0 <= i < |s.players| ==>
            && (r.players[i].isAttacker <==> r.attackerIndex == Some(i))
            && (r.players[i].isDefender <==> r.defenderIndex == Some(i))
            && r.players[i] == s.players[i].(hand := r.players[i].hand, isAttacker := r.players[i].isAttacker,
                                              isDefender := r.players[i].isDefender))
  {
  }

  /** The new hands, one after the other, followed by the new deck, are the old deck; each hand has six cards unless the deck ran out. */
  lemma DealSplits(s: GameState)
    requires s.stage == WaitingForPlayers && |s.players| >= 2
    ensures var r := DealInitialCards(s);
      && Flatten(Hands(r.players)) + r.deck == s.deck
      && forall i :: 0 <= i < |r.players| ==> |r.players[i].hand| <= 6 && (|r.players[i].hand| == 6 || r.deck == [])
  {
    var r := DealInitialCards(s);
    DealSplitsDeck(s.deck, |s.players|);
    DealHandSizes(s.deck, |s.players|);
    assert Hands(r.players) == DealHands(s.deck, |s.players|).0;
  }

  /** Dealing to empty hands loses no card and makes none. */
  lemma DealConserves(s: GameState)
    requires forall i :: 0 <= i < |s.players| ==> s.players[i].hand == []
    ensures AllCards(DealInitialCards(s)) == AllCards(s)
  {
    if s.stage == WaitingForPlayers && |s.players| >= 2 {
      var r := DealInitialCards(s);
      DealSplits(s);
      HeldIsFlatten(r.players);
      HeldSameHands(s.players, seq(|s.players|, i requires 0 <= i < |s.players| => s.players[i].(hand := [])));
      HeldEmpty(seq(|s.players|, i requires 0 <= i < |s.players| => s.players[i].(hand := [])));
    }
  }

  lemma {:induction false} HeldEmpty(players: seq<PlayerState>)
    requires forall i :: 0 <= i < |players| ==> players[i].hand == []
    ensures Held(players) == multiset{}
  {
    if players != [] {
      HeldEmpty(players[..|players| - 1]);
    }
  }

  /** When the lowest card starts and a trump was dealt, the first attacker holds the lowest trump dealt. */
  lemma DealLowestTrumpStarts(s: GameState)
    requires s.stage == WaitingForPlayers && |s.players| >= 2 && s.rules.lowestCardStarts
    ensures var r := DealInitialCards(s);
      (exists i, c :: 0 <= i < |r.players| && c in r.players[i].hand && c.suit == s.trumpSuit) ==>
        exists c :: c in r.players[r.attackerIndex.value].hand && c.suit == s.trumpSuit
                    && forall i, d :: 0 <= i < |r.players| && d in r.players[i].hand && d.suit == s.trumpSuit ==>
                                        DurakValue(c.rank) <= DurakValue(d.rank)
  {
    var r := DealInitialCards(s);
    var hands := DealHands(s.deck, |s.players|).0;
    assert Hands(r.players) == hands;
    EntriesComplete(hands);
    ScanLowestTrump(Entries(hands), s.trumpSuit);
  }

  /** When the lowest card starts and no trump was dealt, the first attacker holds the lowest card dealt. */
  lemma DealLowestCardStarts(s: GameState)
    requires s.stage == WaitingForPlayers && |s.players| >= 2 && s.rules.lowestCardStarts
    ensures var r := DealInitialCards(s);
      (forall i, c :: 0 <= i < |r.players| && c in r.players[i].hand ==> c.suit != s.trumpSuit) ==>
      (exists i, c :: 0 <= i < |r.players| && c in r.players[i].hand) ==>
        exists c :: c in r.players[r.attackerIndex.value].hand
                    && forall i, d :: 0 <= i < |r.players| && d in r.players[i].hand ==> DurakValue(c.rank) <= DurakValue(d.rank)
  {
    var r := DealInitialCards(s);
    var hands := DealHands(s.deck, |s.players|).0;
    assert Hands(r.players) == hands;
    EntriesComplete(hands);
    if forall i, c :: 0 <= i < |r.players| && c in r.players[i].hand ==> c.suit != s.trumpSuit {
      ScanLowestCard(Entries(hands), s.trumpSuit);
    }
  }

  // ---------------------------------------------------------------------------
  // Attacking and throwing in
  // ---------------------------------------------------------------------------

  predicate DefenderSeated(s: GameState) {
    s.defenderIndex.Some? && s.defenderIndex.value < |s.players|
  }

  /** The Durak values of the cards on the table. */
  function TableValues(t: Table): set<nat> {
    set c | c in t.attack + t.defense :: DurakValue(c.rank)
  }

  /** The attack limit of the rules is reached. */
  predicate LimitReached(s: GameState) {
    s.rules.maxAttackCards > 0 && |s.table.attack| >= s.rules.maxAttackCards
  }

  /** The open attacks already match the defender's hand, when the rules limit attacks by it. */
  predicate DefenderCovered(s: GameState)
    requires s.rules.attackLimitByHandSize ==> DefenderSeated(s)
  {
    s.rules.attackLimitByHandSize && |s.table.attack| - |s.table.defense| >= |s.players[s.defenderIndex.value].hand|
  }

  /**
   * `play_attack_card` reads the defender's hand only for an attacker's card
   * at a valid index, of a value already on the table unless the table is
   * empty, below the rules' own attack limit, when the rules limit attacks by
   * the defender's hand.
   */
  predicate AttackReadsDefender(s: GameState, id: nat, ci: int) {
    && s.stage == Attack && s.rules.attackLimitByHandSize && !LimitReached(s)
    && FindPlayer(s.players, id).Some?
    && var p := s.players[FindPlayer(s.players, id).value];
    && p.isAttacker && 0 <= ci < |p.hand|
    && (s.table.attack == [] || DurakValue(p.hand[ci].rank) in TableValues(s.table))
  }

  /** `throw_in_card` reads the defender's hand under the same conditions, from any player, with the value always on the table. */
  predicate ThrowInReadsDefender(s: GameState, id: nat, ci: int) {
    && s.stage == ThrowingIn && s.rules.attackLimitByHandSize && !LimitReached(s)
    && FindPlayer(s.players, id).Some?
    && var p := s.players[FindPlayer(s.players, id).value];
    && 0 <= ci < |p.hand| && DurakValue(p.hand[ci].rank) in TableValues(s.table)
  }

  /** A hand without the card at one index. */
  function Without(hand: seq<Card>, ci: nat): (r: seq<Card>)
    requires ci < |hand|
    ensures multiset(r) + multiset{hand[ci]} == multiset(hand)
    ensures |r| == |hand| - 1
  {
    assert hand == hand[..ci] + [hand[ci]] + hand[ci + 1..];
    hand[..ci] + hand[ci + 1..]
  }

  /** A card laid in attack: it leaves the hand for the attack row, and the defender is to act. */
  function Laid(s: GameState, pi: nat, ci: nat): GameState
    requires pi < |s.players| && ci < |s.players[pi].hand|
  {
    var p := s.players[pi];
    s.(players := s.players[pi := p.(hand := Without(p.hand, ci))],
       table := s.table.(attack := s.table.attack + [p.hand[ci]]),
       stage := Defense, activeIndex := s.defenderIndex)
  }

  /** `play_attack_card`. */
  function PlayAttackCard(s: GameState, id: nat, ci: int): GameState
    requires AttackReadsDefender(s, id, ci) ==> DefenderSeated(s)
  {
    if s.stage != Attack then s
    else
      match FindPlayer(s.players, id)
      case None => s
      case Some(pi) =>
        if !s.players[pi].isAttacker || ci < 0 || ci >= |s.players[pi].hand| then s
        else if s.table.attack != [] && DurakValue(s.players[pi].hand[ci].rank) !in TableValues(s.table) then s
        else if LimitReached(s) || DefenderCovered(s) then s
        else Laid(s, pi, ci)
  }

  /** `throw_in_card`: like an attack, from any player, and the value must already be on the table. */
  function ThrowInCard(s: GameState, id: nat, ci: int): GameState
    requires ThrowInReadsDefender(s, id, ci) ==> DefenderSeated(s)
  {
    if s.stage != ThrowingIn then s
    else
      match FindPlayer(s.players, id)
      case None => s
      case Some(pi) =>
        if ci < 0 || ci >= |s.players[pi].hand| then s
        else if DurakValue(s.players[pi].hand[ci].rank) !in TableValues(s.table) then s
        else if LimitReached(s) || DefenderCovered(s) then s
        else Laid(s, pi, ci)
  }

  /** A laid card moves from the hand to the end of the attack row, and no other hand, no deck or discard card changes. */
  lemma LaidMoves(s: GameState, pi: nat, ci: nat)
    requires pi < |s.players| && ci < |s.players[pi].hand|
    ensures var r := Laid(s, pi, ci);
      && r.stage == Defense && r.activeIndex == s.defenderIndex
      && r.table.attack == s.table.attack + [s.players[pi].hand[ci]] && r.table.defense == s.table.defense
      && |r.players| == |s.players|
      && r.players[pi].hand == s.players[pi].hand[..ci] + s.players[pi].hand[ci + 1..]
      && (forall i :: 0 <= i < |s.players| && i != pi ==> r.players[i] == s.players[i])
      && r.deck == s.deck && r.discard == s.discard
  {
  }

  /** Taking one card out of a hand leaves the held cards short of exactly that card. */
  lemma HeldWithout(players: seq<PlayerState>, pi: nat, ci: nat)
    requires pi < |players| && ci < |players[pi].hand|
    ensures var p := players[pi];
      Held(players[pi := p.(hand := Without(p.hand, ci))]) + multiset{p.hand[ci]} == Held(players)
  {
    var p := players[pi];
    var q := p.(hand := Without(p.hand, ci));
    HeldUpdate(players, pi, q);
    var after := Held(players[pi := q]);
    forall c ensures (after + multiset{p.hand[ci]})[c] == Held(players)[c] {
      assert (after + multiset(p.hand))[c] == (Held(players) + multiset(q.hand))[c];
      assert (multiset(q.hand) + multiset{p.hand[ci]})[c] == multiset(p.hand)[c];
    }
  }

  /** Laying a card loses no card and makes none. */
  lemma LaidConserves(s: GameState, pi: nat, ci: nat)
    requires pi < |s.players| && ci < |s.players[pi].hand|
    ensures AllCards(Laid(s, pi, ci)) == AllCards(s)
  {
    var r := Laid(s, pi, ci);
    var c := s.players[pi].hand[ci];
    HeldWithout(s.players, pi, ci);
    assert Held(r.players) + multiset{c} == Held(s.players);
    assert multiset(r.table.attack) == multiset(s.table.attack) + multiset{c};
  }

  /** An attack is refused, and the state kept, outside the attack stage, from anyone but the attacker, with a bad index, with a value not on a non-empty table, or past a limit. */
  lemma AttackRefused(s: GameState, id: nat, ci: int)
    requires AttackReadsDefender(s, id, ci) ==> DefenderSeated(s)
    ensures s.stage != Attack || FindPlayer(s.players, id).None? ==> PlayAttackCard(s, id, ci) == s
    ensures FindPlayer(s.players, id).Some? ==>
              var p := s.players[FindPlayer(s.players, id).value];
              && (!p.isAttacker || ci < 0 || ci >= |p.hand| ==> PlayAttackCard(s, id, ci) == s)
              && (0 <= ci < |p.hand| && s.table.attack != [] && DurakValue(p.hand[ci].rank) !in TableValues(s.table) ==>
                    PlayAttackCard(s, id, ci) == s)
    ensures s.stage == Attack && LimitReached(s) ==> PlayAttackCard(s, id, ci) == s
    ensures AttackReadsDefender(s, id, ci) && DefenderCovered(s) ==> PlayAttackCard(s, id, ci) == s
  {
  }

  /** Otherwise the attack is laid. */
  lemma AttackAccepted(s: GameState, id: nat, ci: int)
    requires AttackReadsDefender(s, id, ci) ==> DefenderSeated(s)
    requires s.stage == Attack && FindPlayer(s.players, id).Some?
    requires var p := s.players[FindPlayer(s.players, id).value];
      && p.isAttacker && 0 <= ci < |p.hand|
      && (s.table.attack == [] || DurakValue(p.hand[ci].rank) in TableValues(s.table))
    requires !LimitReached(s) && !DefenderCovered(s)
    ensures PlayAttackCard(s, id, ci) == Laid(s, FindPlayer(s.players, id).value, ci)
  {
  }

  /** A throw-in is refused, and the state kept, outside its stage, from an unknown player, with a bad index, with a value not on the table (so always on an empty table), or past a limit. */
  lemma ThrowInRefused(s: GameState, id: nat, ci: int)
    requires ThrowInReadsDefender(s, id, ci) ==> DefenderSeated(s)
    ensures s.stage != ThrowingIn || FindPlayer(s.players, id).None? ==> ThrowInCard(s, id, ci) == s
    ensures s.table == EmptyTable ==> ThrowInCard(s, id, ci) == s
    ensures FindPlayer(s.players, id).Some? ==>
              var p := s.players[FindPlayer(s.players, id).value];
              && (ci < 0 || ci >= |p.hand| ==> ThrowInCard(s, id, ci) == s)
              && (0 <= ci < |p.hand| && DurakValue(p.hand[ci].rank) !in TableValues(s.table) ==> ThrowInCard(s, id, ci) == s)
    ensures s.stage == ThrowingIn && LimitReached(s) ==> ThrowInCard(s, id, ci) == s
    ensures ThrowInReadsDefender(s, id, ci) && DefenderCovered(s) ==> ThrowInCard(s, id, ci) == s
  {
    if s.table == EmptyTable {
      assert TableValues(s.table) == {};
    }
  }

  /** Otherwise the card is laid, by whichever player throws it in. */
  lemma ThrowInAccepted(s: GameState, id: nat, ci: int)
    requires ThrowInReadsDefender(s, id, ci) ==> DefenderSeated(s)
    requires s.stage == ThrowingIn && FindPlayer(s.players, id).Some?
    requires var p := s.players[FindPlayer(s.players, id).value];
      0 <= ci < |p.hand| && DurakValue(p.hand[ci].rank) in TableValues(s.table)
    requires !LimitReached(s) && !DefenderCovered(s)
    ensures ThrowInCard(s, id, ci) == Laid(s, FindPlayer(s.players, id).value, ci)
  {
  }

  /** Attacks and throw-ins lose no card and make none. */
  lemma AttackConserves(s: GameState, id: nat, ci: int)
    requires AttackReadsDefender(s, id, ci) ==> DefenderSeated(s)
    requires ThrowInReadsDefender(s, id, ci) ==> DefenderSeated(s)
    ensures AllCards(PlayAttackCard(s, id, ci)) == AllCards(s)
    ensures AllCards(ThrowInCard(s, id, ci)) == AllCards(s)
  {
    var f := FindPlayer(s.players, id);
    if f.Some? && 0 <= ci < |s.players[f.value].hand| {
      LaidConserves(s, f.value, ci);
    }
  }

  // ---------------------------------------------------------------------------
  // Defending
  // ---------------------------------------------------------------------------

  /** A card beats another of its suit with a higher Durak value; a trump beats any card that is not a trump. */
  predicate Beats(c: Card, a: Card, trump: Option<Suit>) {
    (c.suit == a.suit && DurakValue(c.rank) > DurakValue(a.rank)) || (c.suit == trump && a.suit != trump)
  }

  /** Beating is strict: no card beats itself, and of two cards at most one beats the other; a trump is beaten only by a higher trump. */
  lemma BeatsIsStrict(c: Card, a: Card, trump: Option<Suit>)
    ensures !Beats(c, c, trump)
    ensures Beats(c, a, trump) ==> !Beats(a, c, trump)
    ensures a.suit == trump ==> (Beats(c, a, trump) <==> c.suit == trump && DurakValue(c.rank) > DurakValue(a.rank))
  {
  }

  /** A defence card: it leaves the hand for the defence row. */
  function Parried(s: GameState, pi: nat, ci: nat): GameState
    requires pi < |s.players| && ci < |s.players[pi].hand|
  {
    var p := s.players[pi];
    s.(players := s.players[pi := p.(hand := Without(p.hand, ci))],
       table := s.table.(defense := s.table.defense + [p.hand[ci]]))
  }

  /**
   * `play_defense_card`: the defender answers the first undefended attack
   * card with a card that beats it.  When every attack is answered, play
   * moves to throwing in with the attacker to act, or, if throwing in is
   * not allowed, the round ends with the defence held.
   */
  function PlayDefenseCard(s: GameState, id: nat, ci: int): GameState
    requires DefenseEndsRound(s, id, ci) ==> CanEndRound(s)
  {
    if s.stage != Defense then s
    else
      match FindPlayer(s.players, id)
      case None => s
      case Some(pi) =>
        if !s.players[pi].isDefender || ci < 0 || ci >= |s.players[pi].hand| then s
        else
          match UndefendedCard(s.table)
          case None => s
          case Some(a) =>
            if !Beats(s.players[pi].hand[ci], a, s.trumpSuit) then s
            else
              var d := Parried(s, pi, ci);
              if |d.table.defense| != |s.table.attack| then d
              else if s.rules.allowThrowingIn then d.(stage := ThrowingIn, activeIndex := s.attackerIndex)
              else
                EligibleAfterUpdate(s.players, pi, d.players[pi], None);
                EndRound(d, true)
  }

  /**
   * `play_defense_card` calls `end_round` only when the defender's card beats
   * the last open attack and throwing in is not allowed.
   */
  predicate DefenseEndsRound(s: GameState, id: nat, ci: int) {
    && s.stage == Defense && !s.rules.allowThrowingIn
    && FindPlayer(s.players, id).Some?
    && var p := s.players[FindPlayer(s.players, id).value];
    && p.isDefender && 0 <= ci < |p.hand|
    && UndefendedCard(s.table).Some? && Beats(p.hand[ci], UndefendedCard(s.table).value, s.trumpSuit)
    && |s.table.defense| + 1 == |s.table.attack|
  }

  /** A parried card moves from the hand to the end of the defence row, and nothing else changes. */
  lemma ParriedMoves(s: GameState, pi: nat, ci: nat)
    requires pi < |s.players| && ci < |s.players[pi].hand|
    ensures var r := Parried(s, pi, ci);
      && r.table.defense == s.table.defense + [s.players[pi].hand[ci]] && r.table.attack == s.table.attack
      && |r.players| == |s.players|
      && r.players[pi].hand == s.players[pi].hand[..ci] + s.players[pi].hand[ci + 1..]
      && (forall i :: 0 <= i < |s.players| && i != pi ==> r.players[i] == s.players[i])
      && r == s.(players := r.players, table := r.table)
  {
  }

  /** Parrying loses no card and makes none. */
  lemma ParriedConserves(s: GameState, pi: nat, ci: nat)
    requires pi < |s.players| && ci < |s.players[pi].hand|
    ensures AllCards(Parried(s, pi, ci)) == AllCards(s)
  {
    var r := Parried(s, pi, ci);
    var c := s.players[pi].hand[ci];
    HeldWithout(s.players, pi, ci);
    assert Held(r.players) + multiset{c} == Held(s.players);
    assert multiset(r.table.defense) == multiset(s.table.defense) + multiset{c};
  }

  /** A defence is refused, and the state kept, outside the defence stage, from anyone but the defender, with a bad index, with nothing to answer, or with a card that does not beat the attack. */
  lemma DefenseRefused(s: GameState, id: nat, ci: int)
    requires DefenseEndsRound(s, id, ci) ==> CanEndRound(s)
    ensures s.stage != Defense || FindPlayer(s.players, id).None? || UndefendedCard(s.table).None? ==>
              PlayDefenseCard(s, id, ci) == s
    ensures FindPlayer(s.players, id).Some? ==>
              var p := s.players[FindPlayer(s.players, id).value];
              && (!p.isDefender || ci < 0 || ci >= |p.hand| ==> PlayDefenseCard(s, id, ci) == s)
              && (0 <= ci < |p.hand| && UndefendedCard(s.table).Some? && !Beats(p.hand[ci], UndefendedCard(s.table).value, s.trumpSuit) ==>
                    PlayDefenseCard(s, id, ci) == s)
  {
  }

  /**
   * A card that beats the first undefended attack is played against it;
   * once every attack is answered, throwing in starts with the attacker
   * to act, or, without throwing in, the round ends with the defence held.
   */
  lemma DefenseAccepted(s: GameState, id: nat, ci: int)
    requires s.stage == Defense && FindPlayer(s.players, id).Some?
    requires var p := s.players[FindPlayer(s.players, id).value];
      && p.isDefender && 0 <= ci < |p.hand| && UndefendedCard(s.table).Some?
      && Beats(p.hand[ci], UndefendedCard(s.table).value, s.trumpSuit)
    requires DefenseEndsRound(s, id, ci) ==> CanEndRound(s)
    ensures var pi := FindPlayer(s.players, id).value;
      var d := Parried(s, pi, ci);
      var r := PlayDefenseCard(s, id, ci);
      && (|s.table.defense| + 1 < |s.table.attack| ==> r == d && r.stage == Defense)
      && (|s.table.defense| + 1 == |s.table.attack| && s.rules.allowThrowingIn ==>
            r == d.(stage := ThrowingIn, activeIndex := s.attackerIndex))
      && (|s.table.defense| + 1 == |s.table.attack| && !s.rules.allowThrowingIn ==>
            CanEndRound(d) && r == EndRound(d, true))
  {
    var pi := FindPlayer(s.players, id).value;
    if DefenseEndsRound(s, id, ci) {
      EligibleAfterUpdate(s.players, pi, Parried(s, pi, ci).players[pi], None);
    }
  }

  /** Defending loses no card and makes none. */
  lemma DefenseConserves(s: GameState, id: nat, ci: int)
    requires DefenseEndsRound(s, id, ci) ==> CanEndRound(s)
    ensures AllCards(PlayDefenseCard(s, id, ci)) == AllCards(s)
  {
    var f := FindPlayer(s.players, id);
    if && s.stage == Defense && f.Some? && s.players[f.value].isDefender && 0 <= ci < |s.players[f.value].hand|
       && UndefendedCard(s.table).Some? && Beats(s.players[f.value].hand[ci], UndefendedCard(s.table).value, s.trumpSuit)
    {
      var d := Parried(s, f.value, ci);
      DefenseAccepted(s, id, ci);
      ParriedConserves(s, f.value, ci);
      if |s.table.defense| + 1 == |s.table.attack| && !s.rules.allowThrowingIn {
        EndRoundConserves(d, true);
      }
    } else {
      DefenseRefused(s, id, ci);
    }
  }

  // ---------------------------------------------------------------------------
  // Taking the cards
  // ---------------------------------------------------------------------------

  /** The defender picks up the table. */
  function Taken(s: GameState, pi: nat): GameState
    requires pi < |s.players|
  {
    var p := s.players[pi];
    s.(players := s.players[pi := p.(hand := p.hand + s.table.attack + s.table.defense)], table := EmptyTable)
  }

  /** `take_cards` calls `end_round` whenever the defender asks to take, in the defence stage. */
  predicate TakeEndsRound(s: GameState, id: nat) {
    s.stage == Defense && FindPlayer(s.players, id).Some? && s.players[FindPlayer(s.players, id).value].isDefender
  }

  /** `take_cards`: the defender adds the table to the hand, and the round ends with the defence lost. */
  function TakeCards(s: GameState, id: nat): GameState
    requires TakeEndsRound(s, id) ==> CanEndRound(s)
  {
    if s.stage != Defense then s
    else
      match FindPlayer(s.players, id)
      case None => s
      case Some(pi) =>
        if !s.players[pi].isDefender then s
        else
          EligibleAfterUpdate(s.players, pi, Taken(s, pi).players[pi], None);
          EndRound(Taken(s, pi), false)
  }

  /** Picking up the table loses no card and makes none. */
  lemma TakenConserves(s: GameState, pi: nat)
    requires pi < |s.players|
    ensures AllCards(Taken(s, pi)) == AllCards(s)
  {
    var p := s.players[pi];
    var q := p.(hand := p.hand + s.table.attack + s.table.defense);
    var r := Taken(s, pi);
    HeldUpdate(s.players, pi, q);
    forall c ensures AllCards(r)[c] == AllCards(s)[c] {
      assert (Held(r.players) + multiset(p.hand))[c] == (Held(s.players) + multiset(q.hand))[c];
    }
  }

  /**
   * Only the defender takes, in the defence stage; the defender's new hand
   * starts with the old hand followed by the attack and defence cards,
   * nothing goes to the discard pile, and the round ends with the defence
   * lost: the attacker attacks again if play goes on.
   */
  lemma TakeCardsEffect(s: GameState, id: nat)
    requires TakeEndsRound(s, id) ==> CanEndRound(s)
    ensures s.stage != Defense || FindPlayer(s.players, id).None? ==> TakeCards(s, id) == s
    ensures s.stage == Defense && FindPlayer(s.players, id).Some? && !s.players[FindPlayer(s.players, id).value].isDefender ==>
              TakeCards(s, id) == s
    ensures s.stage == Defense && FindPlayer(s.players, id).Some? && s.players[FindPlayer(s.players, id).value].isDefender ==>
              var pi := FindPlayer(s.players, id).value;
              var r := TakeCards(s, id);
              var picked := s.players[pi].hand + s.table.attack + s.table.defense;
              && |picked| <= |r.players[pi].hand| && r.players[pi].hand[..|picked|] == picked
              && r.discard == s.discard && r.table == EmptyTable && r.currentRound == s.currentRound + 1
              && (r.stage == Attack ==> r.attackerIndex == s.attackerIndex)
    ensures AllCards(TakeCards(s, id)) == AllCards(s)
  {
    var f := FindPlayer(s.players, id);
    if s.stage == Defense && f.Some? && s.players[f.value].isDefender {
      var t := Taken(s, f.value);
      EligibleAfterUpdate(s.players, f.value, t.players[f.value], None);
      TakenConserves(s, f.value);
      EndRoundConserves(t, false);
      EndRoundRefills(t, false);
      EndRoundRefill(t, false);
      EndRoundRoles(t, false);
    }
  }

  // ---------------------------------------------------------------------------
  // Passing
  // ---------------------------------------------------------------------------

  /** What passing in the attack stage needs: an attacker's seat and some player, not the defender, still in the game. */
  predicate CanPassOn(s: GameState) {
    s.attackerIndex.Some? && HasEligible(s.players, s.defenderIndex)
  }

  /** The players after the attacker passes: new roles, and the passer's count up by one. */
  function Rotated(players: seq<PlayerState>, attacker: nat, defender: nat, passer: nat): (r: seq<PlayerState>)
    ensures |r| == |players|
  {
    seq(|players|, i requires 0 <= i < |players| =>
      players[i].(isAttacker := i == attacker, isDefender := i == defender,
                  passCount := players[i].passCount + if i == passer then 1 else 0))
  }

  /** The attack passes on: the next player after the attacker who is neither the defender nor out attacks, and the next player after that who is not out defends. */
  function PassedOn(s: GameState, pi: nat): GameState
    requires CanPassOn(s) && pi < |s.players|
  {
    var n := |s.players|;
    var attacker := NextSeat(s.players, (s.attackerIndex.value + 1) % n, s.defenderIndex);
    assert Eligible(s.players, attacker, None);
    var defender := NextSeat(s.players, (attacker + 1) % n, None);
    s.(players := Rotated(s.players, attacker, defender, pi),
       attackerIndex := Some(attacker), defenderIndex := Some(defender), activeIndex := Some(attacker))
  }

  /** Every player other than the defender who is still in the game has passed. */
  predicate AllPassed(players: seq<PlayerState>, defender: Option<nat>) {
    forall i :: 0 <= i < |players| && Some(i) != defender && !players[i].isOut ==> players[i].passCount != 0
  }

  /** The players after a pass while throwing in: the passer's count up by one. */
  function CountedPass(s: GameState, pi: nat): GameState
    requires pi < |s.players|
  {
    s.(players := s.players[pi := s.players[pi].(passCount := s.players[pi].passCount + 1)])
  }

  lemma SomeoneYetToPass(players: seq<PlayerState>, defender: Option<nat>)
    requires !AllPassed(players, defender)
    ensures HasEligible(players, defender)
  {
    var i :| 0 <= i < |players| && Some(i) != defender && !players[i].isOut && players[i].passCount == 0;
    assert Eligible(players, i, defender);
  }

  /** A pass while throwing in calls `end_round` once it completes the passes of every player who may throw in. */
  predicate PassEndsRound(s: GameState, id: nat) {
    && s.stage == ThrowingIn && FindPlayer(s.players, id).Some?
    && AllPassed(CountedPass(s, FindPlayer(s.players, id).value).players, s.defenderIndex)
  }

  /** A pass while throwing in: the round ends with the defence held once all have passed, else the next player after the passer who is neither the defender nor out is to act. */
  function ThrowInPassed(s: GameState, pi: nat): GameState
    requires pi < |s.players|
    requires AllPassed(CountedPass(s, pi).players, s.defenderIndex) ==> CanEndRound(s)
  {
    var t := CountedPass(s, pi);
    if AllPassed(t.players, t.defenderIndex) then
      EligibleAfterUpdate(s.players, pi, t.players[pi], None);
      EndRound(t, true)
    else
      SomeoneYetToPass(t.players, t.defenderIndex);
      t.(activeIndex := Some(NextSeat(t.players, (pi + 1) % |t.players|, t.defenderIndex)))
  }

  /** `pass_attack`: in the attack stage with no card laid the attack passes on; while throwing in, the pass is counted. */
  function PassAttack(s: GameState, id: nat): GameState
    requires s.stage == Attack && s.table.attack == [] && FindPlayer(s.players, id).Some? ==> CanPassOn(s)
    requires PassEndsRound(s, id) ==> CanEndRound(s)
  {
    if s.stage != Attack && s.stage != ThrowingIn then s
    else
      match FindPlayer(s.players, id)
      case None => s
      case Some(pi) =>
        if s.stage == Attack && s.table.attack == [] then PassedOn(s, pi)
        else if s.stage == ThrowingIn then ThrowInPassed(s, pi)
        else s
  }

  /** The skip loops for the next attacker and defender. */
  method PassOnLoops(s: GameState) returns (attacker: nat, defender: nat)
    requires CanPassOn(s)
    ensures attacker == NextSeat(s.players, (s.attackerIndex.value + 1) % |s.players|, s.defenderIndex)
    ensures attacker < |s.players| && Eligible(s.players, attacker, None)
    ensures defender == NextSeat(s.players, (attacker + 1) % |s.players|, None)
  {
    attacker := SkipLoop(s.players, (s.attackerIndex.value + 1) % |s.players|, s.defenderIndex);
    assert Eligible(s.players, attacker, None);
    defender := SkipLoop(s.players, (attacker + 1) % |s.players|, None);
  }

  /** Passing outside the attack and throwing-in stages, by an unknown player, or in the attack stage once a card is laid, keeps the state. */
  lemma PassRefused(s: GameState, id: nat)
    requires s.stage == Attack && s.table.attack == [] && FindPlayer(s.players, id).Some? ==> CanPassOn(s)
    requires PassEndsRound(s, id) ==> CanEndRound(s)
    ensures (s.stage != Attack && s.stage != ThrowingIn) || FindPlayer(s.players, id).None? ==> PassAttack(s, id) == s
    ensures s.stage == Attack && s.table.attack != [] ==> PassAttack(s, id) == s
  {
  }

  /**
   * A pass with no card laid hands the attack on: the new attacker is
   * neither the old defender nor out, the new defender is not out, each
   * role is held by exactly its seat, the passer's count goes up by one,
   * and no hand changes.
   */
  lemma PassOnRotates(s: GameState, id: nat)
    requires s.stage == Attack && s.table.attack == [] && CanPassOn(s) && FindPlayer(s.players, id).Some?
    ensures var r := PassAttack(s, id);
      var pi := FindPlayer(s.players, id).value;
      && r.attackerIndex.Some? && r.defenderIndex.Some? && r.activeIndex == r.attackerIndex
      && var a := r.attackerIndex.value; var d := r.defenderIndex.value;
      && a < |s.players| && d < |s.players|
      && Some(a) != s.defenderIndex && !s.players[a].isOut && !s.players[d].isOut
      && |r.players| == |s.players|
      && (forall i :: 0 <= i < |s.players| ==>
            && (r.players[i].isAttacker <==> i == a) && (r.players[i].isDefender <==> i == d)
            && r.players[i].hand == s.players[i].hand && r.players[i].isOut == s.players[i].isOut
            && r.players[i].passCount == s.players[i].passCount + (if i == pi then 1 else 0))
      && AllCards(r) == AllCards(s)
  {
    var r := PassAttack(s, id);
    HeldSameHands(s.players, r.players);
  }

  /**
   * A pass while throwing in is counted; once every player other than the
   * defender who is still in has passed, the round ends with the defence
   * held; otherwise the turn goes to a player who is neither the defender
   * nor out, and nothing else changes.
   */
  lemma ThrowInPassCounts(s: GameState, id: nat)
    requires s.stage == ThrowingIn && FindPlayer(s.players, id).Some?
    requires PassEndsRound(s, id) ==> CanEndRound(s)
    ensures var pi := FindPlayer(s.players, id).value;
      var t := CountedPass(s, pi);
      var r := PassAttack(s, id);
      && t.players[pi].passCount == s.players[pi].passCount + 1
      && (AllPassed(t.players, t.defenderIndex) ==> CanEndRound(t) && r == EndRound(t, true))
      && (!AllPassed(t.players, t.defenderIndex) ==>
            && r.activeIndex.Some? && r.activeIndex.value < |s.players|
            && Some(r.activeIndex.value) != s.defenderIndex && !s.players[r.activeIndex.value].isOut
            && r == t.(activeIndex := r.activeIndex) && r.stage == ThrowingIn)
    ensures AllCards(PassAttack(s, id)) == AllCards(s)
  {
    var pi := FindPlayer(s.players, id).value;
    var t := CountedPass(s, pi);
    assert PassAttack(s, id) == ThrowInPassed(s, pi);
    assert AllCards(t) == AllCards(s) by {
      HeldSameHands(s.players, t.players);
    }
    if AllPassed(t.players, t.defenderIndex) {
      EligibleAfterUpdate(s.players, pi, t.players[pi], None);
      EndRoundConserves(t, true);
    } else {
      SomeoneYetToPass(t.players, t.defenderIndex);
      var a := NextSeat(t.players, (pi + 1) % |t.players|, t.defenderIndex);
      assert !s.players[a].isOut;
    }
  }

  // ---------------------------------------------------------------------------
  // Passing the attack to another player
  // ---------------------------------------------------------------------------

  /** The defence moves from one seat to another. */
  function Handed(players: seq<PlayerState>, from: nat, to: nat): (r: seq<PlayerState>)
    ensures |r| == |players|
  {
    seq(|players|, i requires 0 <= i < |players| =>
      if i == from then players[i].(isDefender := false)
      else if i == to then players[i].(isDefender := true)
      else players[i])
  }

  /**
   * `pass_attack_to_player`: with passing allowed, the defender hands the
   * defence to another player still in the game who holds a card of the
   * value of the last defence card.
   */
  function PassAttackToPlayer(s: GameState, id: nat, target: nat): GameState {
    if !s.rules.allowPassing || s.stage != Defense then s
    else
      var d := FindLast(s.players, id);
      var t := if target == id then None else FindLast(s.players, target);
      if d.None? || !s.players[d.value].isDefender then s
      else if t.None? || t.value == d.value || s.players[t.value].isOut then s
      else if s.table.defense == [] then s
      else if !HasCard(s.players[t.value], DurakValue(s.table.defense[|s.table.defense| - 1].rank)) then s
      else s.(players := Handed(s.players, d.value, t.value), defenderIndex := t, activeIndex := t, stage := Defense)
  }

  /**
   * The defence changes hands only when passing is allowed, in the defence
   * stage, from the defender to a different player who is not out, after a
   * defence card, and when that player holds a card of the last defence
   * card's value; then the target defends and acts, the old defender does
   * not defend, and no hand changes.
   */
  lemma PassToPlayerRules(s: GameState, id: nat, target: nat)
    ensures var r := PassAttackToPlayer(s, id, target);
      r != s ==>
        && s.rules.allowPassing && s.stage == Defense && target != id && s.table.defense != []
        && FindLast(s.players, id).Some? && FindLast(s.players, target).Some?
        && var d := FindLast(s.players, id).value; var t := FindLast(s.players, target).value;
        && s.players[d].isDefender && !s.players[t].isOut
        && HasCard(s.players[t], DurakValue(s.table.defense[|s.table.defense| - 1].rank))
        && r.defenderIndex == Some(t) && r.activeIndex == Some(t) && r.stage == Defense
        && r.players[t].isDefender && !r.players[d].isDefender
        && (forall i :: 0 <= i < |s.players| ==> r.players[i].hand == s.players[i].hand)
        && (forall i :: 0 <= i < |s.players| && i != d && i != t ==> r.players[i] == s.players[i])
    ensures AllCards(PassAttackToPlayer(s, id, target)) == AllCards(s)
  {
    var r := PassAttackToPlayer(s, id, target);
    if r != s {
      HeldSameHands(s.players, r.players);
    }
  }

  /** Conversely, a pass that meets every condition hands the defence to the target. */
  lemma PassToPlayerAccepted(s: GameState, id: nat, target: nat)
    requires s.rules.allowPassing && s.stage == Defense && target != id && s.table.defense != []
    requires FindLast(s.players, id).Some? && FindLast(s.players, target).Some?
    requires var d := FindLast(s.players, id).value; var t := FindLast(s.players, target).value;
      && s.players[d].isDefender && !s.players[t].isOut
      && HasCard(s.players[t], DurakValue(s.table.defense[|s.table.defense| - 1].rank))
    ensures var r := PassAttackToPlayer(s, id, target);
      var d := FindLast(s.players, id).value; var t := FindLast(s.players, target).value;
      && r.defenderIndex == Some(t) && r.activeIndex == Some(t) && r.stage == Defense
      && r.players[t].isDefender && !r.players[d].isDefender
  {
  }

  /** The passing loop and checks of `pass_attack_to_player`. */
  method PassToPlayer(s: GameState, id: nat, target: nat) returns (r: GameState)
    ensures r == PassAttackToPlayer(s, id, target)
  {
    if !s.rules.allowPassing || s.stage != Defense {
      return s;
    }
    var d, t := FindDefenderAndTarget(s.players, id, target);
    if d.None? || !s.players[d.value].isDefender {
      return s;
    }
    if t.None? || t.value == d.value || s.players[t.value].isOut {
      return s;
    }
    if s.table.defense == [] {
      return s;
    }
    var last := DurakValue(s.table.defense[|s.table.defense| - 1].rank);
    var matching := false;
    for k := 0 to |s.players[t.value].hand|
      invariant matching <==> exists j :: 0 <= j < k && DurakValue(s.players[t.value].hand[j].rank) == last
    {
      if DurakValue(s.players[t.value].hand[k].rank) == last {
        matching := true;
      }
    }
    if !matching {
      return s;
    }
    r := s.(players := Handed(s.players, d.value, t.value), defenderIndex := t, activeIndex := t, stage := Defense);
  }

  // ---------------------------------------------------------------------------
  // Changing the stage
  // ---------------------------------------------------------------------------

  /** `change_stage`. */
  function ChangeStage(s: GameState, stage: Stage): GameState {
    s.(stage := stage)
  }

  /** Changing the stage moves no card, and moving to the end stage ends the game. */
  lemma ChangeStageKeepsCards(s: GameState, stage: Stage)
    ensures AllCards(ChangeStage(s, stage)) == AllCards(s)
    ensures ChangeStage(s, stage).players == s.players
    ensures GameEnded(ChangeStage(s, GameEnd))
  {
  }
}
