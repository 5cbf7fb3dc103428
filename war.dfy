/**
 * The snapshot state machine of the card game War: each player shows a
 * card, the highest rank value takes the round, and a tie for the highest
 * value starts a war.  Cards are compared by rank value, so an ace counts 1
 * and the ten and picture cards tie at 10.
 */
module War {
  import opened Wrappers
  import opened Cards

  datatype Stage = WaitingForPlayers | Dealing | ComparingCards | AtWar | RoundEnded

  datatype RoundResult = Win | WarStarted

  datatype WarState = WarState(cardsInWar: seq<(nat, Card)>, isActive: bool)

  const NoWar := WarState([], false)

  datatype PlayerState = PlayerState(id: nat, name: string, card: Option<Card>, wins: nat, currentStreak: nat, maxStreak: nat)

  datatype GameState = GameState(
    players: seq<PlayerState>,
    stage: Stage,
    roundsPlayed: nat,
    winnerId: Option<nat>,
    warState: WarState,
    deckCardsRemaining: int)

  /** The index of the first player with this id, if any. */
  function FindPlayer(players: seq<PlayerState>, id: nat): (r: Option<nat>)
    ensures r.Some? ==> r.value < |players| && players[r.value].id == id
    ensures r.Some? ==> forall k :: 0 <= k < r.value ==> players[k].id != id
    ensures r.None? <==> forall k :: 0 <= k < |players| ==> players[k].id != id
  {
    if players == [] then None
    else if players[0].id == id then Some(0)
    else match FindPlayer(players[1..], id)
      case None => None
      case Some(k) => Some(k + 1)
  }

  /** A new player, with no card and no record, joins at the end. */
  function AddPlayer(s: GameState, id: nat, name: string): (r: GameState)
    ensures r.players == s.players + [PlayerState(id, name, None, 0, 0, 0)] && r == s.(players := r.players)
  {
    s.(players := s.players + [PlayerState(id, name, None, 0, 0, 0)])
  }

  /** The first player with this id leaves; an unknown id changes nothing. */
  function RemovePlayer(s: GameState, id: nat): (r: GameState)
    ensures FindPlayer(s.players, id).None? ==> r == s
    ensures FindPlayer(s.players, id).Some? ==>
      var pi := FindPlayer(s.players, id).value;
      |r.players| == |s.players| - 1 && r.players == s.players[..pi] + s.players[pi + 1..] && r == s.(players := r.players)
  {
    match FindPlayer(s.players, id)
    case None => s
    case Some(pi) => s.(players := s.players[..pi] + s.players[pi + 1..])
  }

  /** A player who has just joined can leave again, and the table is as it was. */
  lemma RemoveUndoesAdd(s: GameState, id: nat, name: string)
    requires forall k :: 0 <= k < |s.players| ==> s.players[k].id != id
    ensures RemovePlayer(AddPlayer(s, id, name), id) == s
  {
    var a := AddPlayer(s, id, name);
    assert forall k :: 0 <= k < |s.players| ==> a.players[k] == s.players[k];
    assert a.players[|s.players|].id == id;
    assert FindPlayer(a.players, id) == Some(|s.players|);
    assert a.players[..|s.players|] + a.players[|s.players| + 1..] == s.players;
  }

  /** The player with this id is shown the card and the deck holds one card fewer; an unknown id changes nothing. */
  function DealCard(s: GameState, c: Card, id: nat): (r: GameState)
    ensures FindPlayer(s.players, id).None? ==> r == s
    ensures FindPlayer(s.players, id).Some? ==>
      var pi := FindPlayer(s.players, id).value;
      r == s.(players := s.players[pi := s.players[pi].(card := Some(c))], deckCardsRemaining := s.deckCardsRemaining - 1)
  {
    match FindPlayer(s.players, id)
    case None => s
    case Some(pi) => s.(players := s.players[pi := s.players[pi].(card := Some(c))], deckCardsRemaining := s.deckCardsRemaining - 1)
  }

  /** Every player is holding a card. */
  predicate AllShowing(players: seq<PlayerState>) {
    forall k :: 0 <= k < |players| ==> players[k].card.Some?
  }

  /** The rank value of a player's card. */
  function Shown(p: PlayerState): nat
    requires p.card.Some?
  {
    RankValue(p.card.value.rank)
  }

  /** The highest value on show. */
  function Highest(players: seq<PlayerState>): (v: nat)
    requires |players| > 0 && AllShowing(players)
    ensures forall k :: 0 <= k < |players| ==> Shown(players[k]) <= v
    ensures exists k :: 0 <= k < |players| && Shown(players[k]) == v
  {
    var n := |players| - 1;
    if n == 0 then Shown(players[0])
    else
      var rest := Highest(players[..n]);
      assert forall k :: 0 <= k < n ==> players[..n][k] == players[k];
      if Shown(players[n]) > rest then Shown(players[n]) else rest
  }

  /** The positions of the players showing the highest value, in seat order. */
  function Leaders(players: seq<PlayerState>, v: nat): (r: seq<nat>)
    requires AllShowing(players)
    ensures forall k :: 0 <= k < |r| ==> r[k] < |players| && Shown(players[r[k]]) == v
    ensures forall i :: 0 <= i < |players| && Shown(players[i]) == v ==> i in r
    ensures forall a, b :: 0 <= a < b < |r| ==> r[a] < r[b]
  {
    if players == [] then []
    else
      var n := |players| - 1;
      assert forall k :: 0 <= k < n ==> players[..n][k] == players[k];
      Leaders(players[..n], v) + (if Shown(players[n]) == v then [n] else [])
  }

  /**
   * The search as the engine runs it: one pass over the players keeping the
   * best value so far and everyone who showed it.
   */
  method ScanHighest(players: seq<PlayerState>) returns (best: int, leaders: seq<nat>)
    requires |players| > 0 && AllShowing(players)
    ensures best == Highest(players) && leaders == Leaders(players, Highest(players))
  {
    best := -1;
    leaders := [];
    var i := 0;
    while i < |players|
      invariant 0 <= i <= |players|
      invariant i == 0 ==> best == -1 && leaders == []
      invariant AllShowing(players[..i])
      invariant i > 0 ==> best == Highest(players[..i]) && leaders == Leaders(players[..i], best)
    {
      ShowingPrefix(players, i + 1);
      var v := Shown(players[i]);
      if v > best {
        ScanStep(players, i, v);
        if i > 0 {
          NoLeadersAbove(players[..i], v);
        } else {
          assert players[..0] == [];
        }
        assert Leaders(players[..i + 1], v) == [i];
        best := v;
        leaders := [i];
      } else {
        ScanStep(players, i, best);
        assert i > 0;
        if v == best {
          leaders := leaders + [i];
        }
      }
      i := i + 1;
    }
    assert players[..i] == players;
  }

  /** Every prefix of a table where all show a card shows a card throughout. */
  lemma ShowingPrefix(players: seq<PlayerState>, i: nat)
    requires i <= |players| && AllShowing(players)
    ensures AllShowing(players[..i])
  {
  }

  /** One more player in the scan: the highest and the leaders extend by that player's card. */
  lemma ScanStep(players: seq<PlayerState>, i: nat, v: int)
    requires i < |players| && AllShowing(players)
    ensures AllShowing(players[..i]) && AllShowing(players[..i + 1])
    ensures v >= 0 ==> Leaders(players[..i + 1], v) == Leaders(players[..i], v) + (if Shown(players[i]) == v then [i] else [])
    ensures i > 0 ==> Highest(players[..i + 1]) == if Shown(players[i]) > Highest(players[..i]) then Shown(players[i]) else Highest(players[..i])
    ensures i == 0 ==> Highest(players[..1]) == Shown(players[0])
  {
    var pre, ext := players[..i], players[..i + 1];
    assert ext[..|ext| - 1] == pre && ext[|ext| - 1] == players[i];
    ExtendedLast(pre, ext, players[i], v);
  }

  lemma ExtendedLast(pre: seq<PlayerState>, ext: seq<PlayerState>, p: PlayerState, v: int)
    requires |ext| == |pre| + 1 && ext[..|pre|] == pre && ext[|pre|] == p && AllShowing(ext)
    ensures AllShowing(pre)
    ensures v >= 0 ==> Leaders(ext, v) == Leaders(pre, v) + (if Shown(p) == v then [|pre|] else [])
    ensures |pre| > 0 ==> Highest(ext) == if Shown(p) > Highest(pre) then Shown(p) else Highest(pre)
    ensures |pre| == 0 ==> Highest(ext) == Shown(p)
  {
  }

  /** Nobody shows a value above the highest. */
  lemma {:induction false} NoLeadersAbove(players: seq<PlayerState>, v: nat)
    requires |players| > 0 && AllShowing(players) && v > Highest(players)
    ensures Leaders(players, v) == []
  {
    var n := |players| - 1;
    assert forall k :: 0 <= k < n ==> players[..n][k] == players[k];
    if n > 0 {
      assert Highest(players[..n]) <= Highest(players);
      NoLeadersAbove(players[..n], v);
    } else {
      assert players[..n] == [];
    }
  }

  /** The round's record for every player: the winner's wins and streak go up, everyone else's streak ends. */
  function Credit(players: seq<PlayerState>, winner: nat): (r: seq<PlayerState>)
    ensures |r| == |players|
    ensures forall k :: 0 <= k < |players| && players[k].id == winner ==>
      r[k] == players[k].(wins := players[k].wins + 1, currentStreak := players[k].currentStreak + 1,
                          maxStreak := if players[k].maxStreak >= players[k].currentStreak + 1 then players[k].maxStreak else players[k].currentStreak + 1)
    ensures forall k :: 0 <= k < |players| && players[k].id != winner ==> r[k] == players[k].(currentStreak := 0)
  {
    seq(|players|, k requires 0 <= k < |players| =>
      var p := players[k];
      if p.id == winner then
        var streak := p.currentStreak + 1;
        p.(wins := p.wins + 1, currentStreak := streak, maxStreak := if p.maxStreak >= streak then p.maxStreak else streak)
      else p.(currentStreak := 0))
  }

  /** A record's best streak is never below its current streak. */
  predicate StreaksConsistent(players: seq<PlayerState>) {
    forall k :: 0 <= k < |players| ==> players[k].currentStreak <= players[k].maxStreak
  }

  /** Crediting a round keeps every best streak at or above the current one, and never lowers a best streak or a win count. */
  lemma CreditKeepsStreaks(players: seq<PlayerState>, winner: nat)
    requires StreaksConsistent(players)
    ensures StreaksConsistent(Credit(players, winner))
    ensures forall k :: 0 <= k < |players| ==>
      Credit(players, winner)[k].maxStreak >= players[k].maxStreak && Credit(players, winner)[k].wins >= players[k].wins
  {
  }

  /**
   * Comparing the cards shown.  With fewer than two players, or someone
   * without a card, nothing changes and the result is a win.  A tie for the
   * highest value starts a war holding every card on show.  Otherwise the
   * first player with the highest value wins the round.
   */
  function CompareCards(s: GameState): (r: (GameState, RoundResult))
    ensures |s.players| < 2 || !AllShowing(s.players) ==> r == (s, Win)
  {
    if |s.players| < 2 || !AllShowing(s.players) then (s, Win)
    else
      var leaders := Leaders(s.players, Highest(s.players));
      if |leaders| > 1 then
        (s.(warState := WarState(seq(|s.players|, k requires 0 <= k < |s.players| => (s.players[k].id, s.players[k].card.value)), true),
            stage := AtWar), WarStarted)
      else
        var w := s.players[leaders[0]].id;
        (s.(players := Credit(s.players, w), winnerId := Some(w), roundsPlayed := s.roundsPlayed + 1, stage := RoundEnded), Win)
  }

  /** There is always at least one leader, so a comparison never lacks a winner. */
  lemma LeadersNonEmpty(players: seq<PlayerState>)
    requires |players| > 0 && AllShowing(players)
    ensures |Leaders(players, Highest(players))| >= 1
  {
    var k :| 0 <= k < |players| && Shown(players[k]) == Highest(players);
    assert k in Leaders(players, Highest(players));
  }

  /** A tie for the highest value starts a war over every card on show, and nothing else changes. */
  lemma TieStartsWar(s: GameState)
    requires |s.players| >= 2 && AllShowing(s.players)
    requires exists a, b :: 0 <= a < b < |s.players| && Shown(s.players[a]) == Shown(s.players[b]) == Highest(s.players)
    ensures var (r, result) := CompareCards(s);
      result == WarStarted && r.stage == AtWar && r.warState.isActive && r.players == s.players
      && r.roundsPlayed == s.roundsPlayed
      && |r.warState.cardsInWar| == |s.players|
      && forall k :: 0 <= k < |s.players| ==> r.warState.cardsInWar[k] == (s.players[k].id, s.players[k].card.value)
  {
    var a, b :| 0 <= a < b < |s.players| && Shown(s.players[a]) == Shown(s.players[b]) == Highest(s.players);
    TwoLeaders(s.players, Highest(s.players), a, b);
    WarOnTie(s);
  }

  /** With more than one leader the comparison starts a war over every card on show. */
  lemma WarOnTie(s: GameState)
    requires |s.players| >= 2 && AllShowing(s.players) && |Leaders(s.players, Highest(s.players))| > 1
    ensures var (r, result) := CompareCards(s);
      result == WarStarted && r.stage == AtWar && r.warState.isActive && r.players == s.players
      && r.roundsPlayed == s.roundsPlayed
      && |r.warState.cardsInWar| == |s.players|
      && forall k :: 0 <= k < |s.players| ==> r.warState.cardsInWar[k] == (s.players[k].id, s.players[k].card.value)
  {
  }

  /** Two different players showing `v` make at least two leaders. */
  lemma TwoLeaders(players: seq<PlayerState>, v: nat, a: nat, b: nat)
    requires AllShowing(players) && a < b < |players| && Shown(players[a]) == v && Shown(players[b]) == v
    ensures |Leaders(players, v)| > 1
  {
    var leaders := Leaders(players, v);
    assert a in leaders && b in leaders;
    var ia :| 0 <= ia < |leaders| && leaders[ia] == a;
    var ib :| 0 <= ib < |leaders| && leaders[ib] == b;
    assert ia != ib;
  }

  /**
   * A unique highest card wins the round: the winner is the player showing
   * it, the round count goes up by one, and the round is over.
   */
  lemma UniqueHighestWins(s: GameState, w: nat)
    requires |s.players| >= 2 && AllShowing(s.players) && w < |s.players|
    requires forall k :: 0 <= k < |s.players| && k != w ==> Shown(s.players[k]) < Shown(s.players[w])
    ensures var (r, result) := CompareCards(s);
      result == Win && r.stage == RoundEnded && r.winnerId == Some(s.players[w].id)
      && r.roundsPlayed == s.roundsPlayed + 1 && r.players == Credit(s.players, s.players[w].id)
  {
    assert Highest(s.players) == Shown(s.players[w]);
    SoleLeader(s.players, w, Shown(s.players[w]));
  }

  /** When only the player at `w` shows `v`, that player is the only leader. */
  lemma {:induction false} SoleLeader(players: seq<PlayerState>, w: nat, v: nat)
    requires AllShowing(players) && w < |players| && Shown(players[w]) == v
    requires forall k :: 0 <= k < |players| && k != w ==> Shown(players[k]) != v
    ensures Leaders(players, v) == [w]
  {
    var n := |players| - 1;
    assert forall k :: 0 <= k < n ==> players[..n][k] == players[k];
    if w == n {
      NoLeader(players[..n], v);
    } else {
      SoleLeader(players[..n], w, v);
    }
  }

  /** When nobody shows `v`, nobody leads with it. */
  lemma {:induction false} NoLeader(players: seq<PlayerState>, v: nat)
    requires AllShowing(players)
    requires forall k :: 0 <= k < |players| ==> Shown(players[k]) != v
    ensures Leaders(players, v) == []
  {
    if players != [] {
      var n := |players| - 1;
      assert forall k :: 0 <= k < n ==> players[..n][k] == players[k];
      NoLeader(players[..n], v);
    }
  }

  /** A war is settled in favour of the first player in it; the war is cleared and the round ends. */
  function ResolveWar(s: GameState): (r: GameState)
    ensures !s.warState.isActive || s.warState.cardsInWar == [] ==> r == s
    ensures s.warState.isActive && s.warState.cardsInWar != [] ==>
      var w := s.warState.cardsInWar[0].0;
      r.players == Credit(s.players, w) && r.winnerId == Some(w) && r.warState == NoWar
      && r.roundsPlayed == s.roundsPlayed + 1 && r.stage == RoundEnded
  {
    if !s.warState.isActive || s.warState.cardsInWar == [] then s
    else
      var w := s.warState.cardsInWar[0].0;
      s.(players := Credit(s.players, w), winnerId := Some(w), warState := NoWar, roundsPlayed := s.roundsPlayed + 1, stage := RoundEnded)
  }

  /** Settling a war the comparison started credits the first seated player. */
  lemma WarGoesToFirstSeat(s: GameState)
    requires |s.players| >= 2 && AllShowing(s.players) && CompareCards(s).1 == WarStarted
    ensures ResolveWar(CompareCards(s).0).winnerId == Some(s.players[0].id)
    ensures ResolveWar(CompareCards(s).0).roundsPlayed == s.roundsPlayed + 1
  {
  }

  /** Moves to another stage, changing nothing else. */
  function ChangeStage(s: GameState, stage: Stage): (r: GameState)
    ensures r.stage == stage && r.(stage := s.stage) == s
  {
    s.(stage := stage)
  }

  /** A fresh round: every card taken back, no winner, no war, dealing. */
  function ResetForNewRound(s: GameState): (r: GameState)
    ensures |r.players| == |s.players| && r.winnerId == None && r.warState == NoWar && r.stage == Dealing
    ensures forall k :: 0 <= k < |s.players| ==> r.players[k] == s.players[k].(card := None)
    ensures r.roundsPlayed == s.roundsPlayed && r.deckCardsRemaining == s.deckCardsRemaining
  {
    s.(players := seq(|s.players|, k requires 0 <= k < |s.players| => s.players[k].(card := None)),
       winnerId := None, warState := NoWar, stage := Dealing)
  }

  /** After a reset no one is showing a card, so comparing changes nothing. */
  lemma ResetThenCompareIsNoOp(s: GameState)
    requires |s.players| > 0
    ensures CompareCards(ResetForNewRound(s)) == (ResetForNewRound(s), Win)
  {
    assert ResetForNewRound(s).players[0].card == None;
  }
}
