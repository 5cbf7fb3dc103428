/**
 * The snapshot state of a game of Durak: the table of attack and defence
 * cards, the players with their hands and roles, the rules and the game.
 *
 * Card values follow the Durak value table.  Its entries for `JACK`,
 * `QUEEN` and `KING` are keyed by the same enumeration member as `TEN`,
 * so the last of them wins and every ten-valued card is worth 13.
 */
module DurakState {
  import opened Wrappers
  import opened Cards

  /** `get_durak_value`: two to nine by face, every ten-valued card 13, the ace 14, the joker 0. */
  function DurakValue(r: Rank): (v: nat)
    ensures v <= 14
  {
    match r
    case Two => 2
    case Three => 3
    case Four => 4
    case Five => 5
    case Six => 6
    case Seven => 7
    case Eight => 8
    case Nine => 9
    case Ten => 13
    case Ace => 14
    case Joker => 0
  }

  /** The ace is the highest card, the ten-valued ranks (King included) are worth 13, and the number ranks keep their face value. */
  lemma DurakValueOrder(r: Rank)
    ensures DurakValue(r) == 14 <==> r == Ace
    ensures DurakValue(r) == 13 <==> r == King
    ensures DurakValue(r) == 0 <==> r == Joker
    ensures r !in {Ten, Ace, Joker} ==> DurakValue(r) == RankValue(r)
    ensures forall q :: DurakValue(q) == DurakValue(r) ==> q == r
  {
  }

  datatype Stage = WaitingForPlayers | Dealing | Attack | Defense | Passing | ThrowingIn | RoundEnd | GameEnd

  /** The cards on the table: attack cards, and the defence cards played against them in order. */
  datatype Table = Table(attack: seq<Card>, defense: seq<Card>)

  const EmptyTable := Table([], [])

  /** `is_attack_position_open`: a position holding an attack card that has not been answered. */
  predicate IsAttackPositionOpen(t: Table, position: int) {
    position < |t.attack| && position >= |t.defense|
  }

  /** `get_undefended_card`: the first attack card with no defence card against it. */
  function UndefendedCard(t: Table): (r: Option<Card>)
    ensures r.Some? <==> |t.attack| > |t.defense|
  {
    if |t.attack| > |t.defense| then Some(t.attack[|t.defense|]) else None
  }

  /** There is an undefended card exactly when some position is open, and it lies at the first open position. */
  lemma UndefendedAtFirstOpen(t: Table)
    ensures UndefendedCard(t).Some? <==> exists p :: IsAttackPositionOpen(t, p)
    ensures UndefendedCard(t).Some? ==>
              IsAttackPositionOpen(t, |t.defense|) && UndefendedCard(t).value == t.attack[|t.defense|]
    ensures forall p :: IsAttackPositionOpen(t, p) ==> |t.defense| <= p
  {
    if |t.attack| > |t.defense| {
      assert IsAttackPositionOpen(t, |t.defense|);
    }
  }

  /** `attack_defense_pairs`: each attack card with its defence card, if one has been played. */
  function Pairs(t: Table): (r: seq<(Card, Option<Card>)>)
    ensures |r| == |t.attack|
  {
    seq(|t.attack|, i requires 0 <= i < |t.attack| =>
      (t.attack[i], if i < |t.defense| then Some(t.defense[i]) else None))
  }

  /**
   * One pair per attack card; a pair lacks its defence card exactly at the
   * open positions, and the first such pair holds the undefended card.
   */
  lemma PairsShowOpenPositions(t: Table)
    ensures forall i :: 0 <= i < |Pairs(t)| ==> Pairs(t)[i].0 == t.attack[i]
    ensures forall i :: 0 <= i < |Pairs(t)| ==> (Pairs(t)[i].1.None? <==> IsAttackPositionOpen(t, i))
    ensures forall i :: 0 <= i < |Pairs(t)| && i < |t.defense| ==> Pairs(t)[i].1 == Some(t.defense[i])
    ensures UndefendedCard(t).Some? ==> Pairs(t)[|t.defense|] == (UndefendedCard(t).value, None)
  {
  }

  /** The loop of `attack_defense_pairs`. */
  method AttackDefensePairs(t: Table) returns (pairs: seq<(Card, Option<Card>)>)
    ensures pairs == Pairs(t)
  {
    pairs := [];
    for i := 0 to |t.attack|
      invariant pairs == Pairs(t)[..i]
    {
      var defense := if i < |t.defense| then Some(t.defense[i]) else None;
      pairs := pairs + [(t.attack[i], defense)];
    }
  }

  datatype PlayerState = PlayerState(
    id: nat,
    name: string,
    hand: seq<Card>,
    isAttacker: bool,
    isDefender: bool,
    isOut: bool,
    passCount: nat)

  /** `card_count`. */
  function CardCount(p: PlayerState): nat {
    |p.hand|
  }

  /** `has_card`: some card in the hand has this Durak value. */
  predicate HasCard(p: PlayerState, value: int) {
    exists c :: c in p.hand && DurakValue(c.rank) == value
  }

  /** A player has a card of value v exactly when some card in the hand has that rank's value; values lie in 0..14. */
  lemma HasCardValues(p: PlayerState, value: int)
    ensures HasCard(p, value) ==> 0 <= value <= 14
    ensures forall c :: c in p.hand ==> HasCard(p, DurakValue(c.rank))
    ensures p.hand == [] ==> !HasCard(p, value)
  {
  }

  /** The rules of a game; `trumpSelection` names how the trump is chosen, `"bottom_card"` or `"random"`. */
  datatype Rules = Rules(
    deckSize: int,
    allowPassing: bool,
    allowThrowingIn: bool,
    maxAttackCards: int,
    attackLimitByHandSize: bool,
    trumpSelection: string,
    lowestCardStarts: bool,
    refillThreshold: int)

  const DefaultRules := Rules(36, false, true, -1, true, "bottom_card", true, 6)

  datatype GameState = GameState(
    players: seq<PlayerState>,
    stage: Stage,
    trumpSuit: Option<Suit>,
    trumpCard: Option<Card>,
    attackerIndex: Option<nat>,
    defenderIndex: Option<nat>,
    activeIndex: Option<nat>,
    table: Table,
    deck: seq<Card>,
    discard: seq<Card>,
    rules: Rules,
    currentRound: nat,
    loserId: Option<nat>)

  /** A fresh game: no players, waiting for them, the default rules. */
  const NewGame := GameState([], WaitingForPlayers, None, None, None, None, None, EmptyTable, [], [], DefaultRules, 0, None)

  /** `deck_size`. */
  function DeckSize(s: GameState): nat {
    |s.deck|
  }

  /** The player at an index, when the index is set and in range. */
  function Seat(players: seq<PlayerState>, index: Option<nat>): (r: Option<PlayerState>)
    ensures r.Some? <==> index.Some? && index.value < |players|
    ensures r.Some? ==> r.value in players
  {
    if index.Some? && index.value < |players| then Some(players[index.value]) else None
  }

  /** `active_player`. */
  function ActivePlayer(s: GameState): Option<PlayerState> {
    Seat(s.players, s.activeIndex)
  }

  /** `current_attacker`. */
  function CurrentAttacker(s: GameState): Option<PlayerState> {
    Seat(s.players, s.attackerIndex)
  }

  /** `current_defender`. */
  function CurrentDefender(s: GameState): Option<PlayerState> {
    Seat(s.players, s.defenderIndex)
  }

  /** `players_in_game`: the players not out, in seat order. */
  function PlayersInGame(players: seq<PlayerState>): (r: seq<PlayerState>)
    ensures |r| <= |players|
    ensures forall p :: p in r ==> p in players && !p.isOut
  {
    if players == [] then []
    else
      var init := PlayersInGame(players[..|players| - 1]);
      var last := players[|players| - 1];
      if last.isOut then init else init + [last]
  }

  /** Every player not out is among the players in game. */
  lemma {:induction false} PlayersInGameComplete(players: seq<PlayerState>)
    ensures forall p :: p in players && !p.isOut ==> p in PlayersInGame(players)
  {
    if players != [] {
      var init := players[..|players| - 1];
      PlayersInGameComplete(init);
      assert players == init + [players[|players| - 1]];
    }
  }

  /** At most one seat holds a player who is not out. */
  predicate AtMostOneLeft(players: seq<PlayerState>) {
    forall i, j :: 0 <= i < j < |players| ==> players[i].isOut || players[j].isOut
  }

  lemma {:induction false} InGameAtMostOne(players: seq<PlayerState>)
    ensures |PlayersInGame(players)| <= 1 <==> AtMostOneLeft(players)
    ensures |PlayersInGame(players)| == 0 <==> forall i :: 0 <= i < |players| ==> players[i].isOut
  {
    if players != [] {
      var n := |players| - 1;
      var init := players[..n];
      InGameAtMostOne(init);
      assert forall i :: 0 <= i < n ==> init[i] == players[i];
      if !players[n].isOut && |PlayersInGame(init)| == 1 {
        var i :| 0 <= i < n && !init[i].isOut;
        assert !players[i].isOut && !players[n].isOut;
      }
    }
  }

  /** `game_ended`: at most one player is still in the game, or the stage says the game is over. */
  predicate GameEnded(s: GameState) {
    |PlayersInGame(s.players)| <= 1 || s.stage == GameEnd
  }

  /** The game has ended exactly when its stage says so or no two seats hold players still in it. */
  lemma GameEndedMeans(s: GameState)
    ensures GameEnded(s) <==> s.stage == GameEnd || AtMostOneLeft(s.players)
  {
    InGameAtMostOne(s.players);
  }
}
