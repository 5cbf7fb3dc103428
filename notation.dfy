/**
 * The blackjack notation: two-character cards, action letters with the
 * card a hit received, outcome codes, and the test-case text format with
 * its `@deck`, `@rules` and `@expect_…` lines.
 */
module Notation {
  import opened Wrappers
  import opened Text

  datatype Action = Hit | Stand | Double | Split | Surrender | Insurance

  function ActionLetter(a: Action): char {
    match a
    case Hit => 'H' case Stand => 'S' case Double => 'D'
    case Split => 'P' case Surrender => 'R' case Insurance => 'I'
  }

  /** The action a one-letter code names, if any. */
  function ActionFromLetter(c: char): (r: Option<Action>)
    ensures r.Some? ==> ActionLetter(r.value) == c
    ensures forall a :: ActionLetter(a) == c ==> r == Some(a)
  {
    match c
    case 'H' => Some(Hit) case 'S' => Some(Stand) case 'D' => Some(Double)
    case 'P' => Some(Split) case 'R' => Some(Surrender) case 'I' => Some(Insurance)
    case _ => None
  }

  /** `Action(t)`: only a one-letter action code names an action. */
  function ActionFromText(t: string): (r: Option<Action>)
    ensures r.Some? <==> |t| == 1 && ActionFromLetter(t[0]).Some?
    ensures r.Some? ==> t == [ActionLetter(r.value)]
  {
    if |t| == 1 then ActionFromLetter(t[0]) else None
  }

  datatype Outcome = Win | Loss | Push | BlackjackWin | SurrenderLoss

  function OutcomeText(o: Outcome): string {
    match o
    case Win => "W" case Loss => "L" case Push => "P"
    case BlackjackWin => "BJ-W" case SurrenderLoss => "R-L"
  }

  /** `Outcome(t)`: the outcome whose code is exactly `t`. */
  function OutcomeFromText(t: string): (r: Option<Outcome>)
    ensures r.Some? ==> OutcomeText(r.value) == t
    ensures forall o :: OutcomeText(o) == t ==> r == Some(o)
  {
    if t == "W" then Some(Win)
    else if t == "L" then Some(Loss)
    else if t == "P" then Some(Push)
    else if t == "BJ-W" then Some(BlackjackWin)
    else if t == "R-L" then Some(SurrenderLoss)
    else None
  }

  datatype NotationError =
    | InvalidCard(text: string)
    | InvalidAction(text: string)
    | InvalidOutcome(text: string)
    | InvalidNumber(text: string)
    | MissingField(field: string)

  /** A card of the notation: a rank character and a suit character. */
  datatype NCard = NCard(rank: char, suit: char)

  function CardText(c: NCard): (s: string)
    ensures |s| == 2
  {
    [c.rank, c.suit]
  }

  /** `Card.from_str`: exactly two characters, rank then suit. */
  function FromStr(s: string): (r: Result<NCard, NotationError>)
    ensures r.Ok? <==> |s| == 2
    ensures r.Ok? ==> CardText(r.value) == s
    ensures r.Err? ==> r.error == InvalidCard(s)
  {
    if |s| != 2 then Err(InvalidCard(s)) else Ok(NCard(s[0], s[1]))
  }

  /** Reading a card's text gives the card back. */
  lemma FromStrCardText(c: NCard)
    ensures FromStr(CardText(c)) == Ok(c)
  {
  }

  /**
   * The blackjack value of a card: an ace 1, T, J, Q and K 10, and any
   * other rank the number it spells; a rank that spells no number is an
   * error.
   */
  function CardValue(c: NCard): (r: Result<int, NotationError>)
    ensures c.rank == 'A' ==> r == Ok(1)
    ensures c.rank in "TJQK" ==> r == Ok(10)
    ensures IsDigit(c.rank) ==> r == Ok(DigitValue(c.rank))
    ensures r.Ok? ==> 0 <= r.value <= 10
    ensures r.Ok? <==> c.rank == 'A' || c.rank in "TJQK" || IsDigit(c.rank)
  {
    if c.rank == 'A' then Ok(1)
    else if c.rank in "TJQK" then Ok(10)
    else
      var n := ParseInt([c.rank]);
      ParseOneChar(c.rank);
      if n.Err? then Err(InvalidCard(CardText(c))) else Ok(n.value)
  }

  /** `int` of a single character reads a digit and rejects anything else. */
  lemma ParseOneChar(ch: char)
    ensures ParseInt([ch]) == if IsDigit(ch) then Ok(DigitValue(ch) as int) else Err(NotANumber)
  {
    if IsSpace(ch) {
      assert Strip([ch]) == [];
    } else {
      StripOfStripped([ch]);
      SignedOneChar(ch);
    }
  }

  lemma SignedOneChar(ch: char)
    ensures ParseSigned([ch]) == if IsDigit(ch) then Ok(DigitValue(ch) as int) else Err(NotANumber)
  {
    if ch == '-' || ch == '+' {
      assert [ch][1..] == [];
    } else if IsDigit(ch) {
      assert [ch][..0] == [];
      assert DigitsValue([ch]) == DigitValue(ch);
    } else {
      assert [ch][0] == ch;
    }
  }

  /** The cards read from the comma-separated pieces, stopping at the first piece that is not a card. */
  function ParsePieces(pieces: seq<string>): (r: Result<seq<NCard>, NotationError>)
    ensures r.Ok? ==> |r.value| == |pieces|
    ensures r.Ok? ==> forall i :: 0 <= i < |pieces| ==> CardText(r.value[i]) == Strip(pieces[i])
    ensures r.Ok? <==> forall i :: 0 <= i < |pieces| ==> |Strip(pieces[i])| == 2
  {
    if pieces == [] then Ok([])
    else
      var c := FromStr(Strip(pieces[0]));
      if c.Err? then Err(c.error)
      else
        var rest := ParsePieces(pieces[1..]);
        if rest.Err? then Err(rest.error)
        else
          assert forall i :: 1 <= i < |pieces| ==> pieces[i] == pieces[1..][i - 1];
          Ok([c.value] + rest.value)
  }

  /** `parse_card_list`: split on commas, trim each piece, read each as a card. */
  function ParseCardList(s: string): (r: Result<seq<NCard>, NotationError>)
    ensures r.Ok? ==> |r.value| == |Text.Split(s, ',')|
  {
    ParsePieces(Text.Split(s, ','))
  }

  function CardTexts(cards: seq<NCard>): (ts: seq<string>)
    ensures |ts| == |cards| && forall i :: 0 <= i < |cards| ==> ts[i] == CardText(cards[i])
  {
    seq(|cards|, i requires 0 <= i < |cards| => CardText(cards[i]))
  }

  /** A card that survives being written into a list: neither character is whitespace, a comma, a colon or a parenthesis. */
  predicate Printable(c: NCard) {
    && !IsSpace(c.rank) && !IsSpace(c.suit)
    && c.rank !in ",:()" && c.suit !in ",:()"
  }

  /** Reading the texts of printable cards one by one gives the cards. */
  lemma {:induction false} ParsePiecesOfTexts(cards: seq<NCard>)
    requires forall c :: c in cards ==> Printable(c)
    ensures ParsePieces(CardTexts(cards)) == Ok(cards)
  {
    if cards != [] {
      var ts := CardTexts(cards);
      assert ts[1..] == CardTexts(cards[1..]);
      ParsePiecesOfTexts(cards[1..]);
      assert cards[0] in cards;
      StripOfStripped(ts[0]);
      assert [cards[0]] + cards[1..] == cards;
    }
  }

  /** Writing a non-empty list of printable cards with commas and reading it back gives the cards. */
  lemma ParseCardListJoin(cards: seq<NCard>)
    requires |cards| >= 1 && forall c :: c in cards ==> Printable(c)
    ensures ParseCardList(Join(CardTexts(cards), ',')) == Ok(cards)
  {
    var ts := CardTexts(cards);
    forall p | p in ts
      ensures ',' !in p
    {
      var i :| 0 <= i < |ts| && ts[i] == p;
      assert cards[i] in cards;
    }
    SplitJoin(ts, ',');
    ParsePiecesOfTexts(cards);
  }

  /** One action of a hand and the card it received, if any. */
  datatype ActionStep = ActionStep(action: Action, card: Option<NCard>)

  /**
   * The card group after an action letter: an opening parenthesis, at
   * least one character other than a closing one, and the closing
   * parenthesis.  Gives the text inside and the number of characters the
   * group takes.
   */
  function CardGroup(t: string): (g: Option<(string, nat)>)
    ensures g.Some? ==> 3 <= g.value.1 <= |t| && g.value.0 == t[1..g.value.1 - 1] && ')' !in g.value.0
    ensures g.Some? ==> t[0] == '(' && t[g.value.1 - 1] == ')'
    ensures t == [] || t[0] != '(' ==> g.None?
  {
    if t != [] && t[0] == '(' then
      var k := IndexOf(t[1..], ')');
      if k.None? || k.value == 0 then None
      else
        assert t[1..][..k.value] == t[1..k.value + 1];
        Some((t[1..k.value + 1], k.value + 2))
    else None
  }

  function Prepend(x: ActionStep, r: Result<seq<ActionStep>, NotationError>): Result<seq<ActionStep>, NotationError> {
    if r.Err? then r else Ok([x] + r.value)
  }

  /**
   * `parse_action_sequence`: every action letter is one step; a card group
   * right after it is read as the card it received.  Characters that are
   * not action letters are skipped, and a group that does not hold exactly
   * two characters is an error.
   */
  function ScanActions(s: string): (r: Result<seq<ActionStep>, NotationError>)
    ensures r.Ok? ==> |r.value| <= |s|
    decreases |s|
  {
    if s == [] then Ok([])
    else match ActionFromLetter(s[0])
      case None => ScanActions(s[1..])
      case Some(a) =>
        var g := CardGroup(s[1..]);
        if g.None? then Prepend(ActionStep(a, None), ScanActions(s[1..]))
        else
          var c := FromStr(g.value.0);
          if c.Err? then Err(c.error)
          else Prepend(ActionStep(a, Some(c.value)), ScanActions(s[1..][g.value.1..]))
  }

  function Then(acc: seq<ActionStep>, r: Result<seq<ActionStep>, NotationError>): Result<seq<ActionStep>, NotationError> {
    if r.Err? then r else Ok(acc + r.value)
  }

  lemma ThenPrepend(acc: seq<ActionStep>, x: ActionStep, r: Result<seq<ActionStep>, NotationError>)
    ensures Then(acc, Prepend(x, r)) == Then(acc + [x], r)
  {
    if r.Ok? {
      assert acc + ([x] + r.value) == (acc + [x]) + r.value;
    }
  }

  /** One step of the scan, at the first character of a non-empty text. */
  lemma ScanActionsUnfold(t: string)
    requires t != []
    ensures ActionFromLetter(t[0]).None? ==> ScanActions(t) == ScanActions(t[1..])
    ensures ActionFromLetter(t[0]).Some? && CardGroup(t[1..]).None? ==>
      ScanActions(t) == Prepend(ActionStep(ActionFromLetter(t[0]).value, None), ScanActions(t[1..]))
    ensures ActionFromLetter(t[0]).Some? && CardGroup(t[1..]).Some? ==>
      var g := CardGroup(t[1..]).value;
      var c := FromStr(g.0);
      ScanActions(t) == if c.Err? then Err(c.error) else Prepend(ActionStep(ActionFromLetter(t[0]).value, Some(c.value)), ScanActions(t[1..][g.1..]))
  {
  }

  /** The matching loop of `parse_action_sequence`. */
  method ParseActionSequence(s: string) returns (r: Result<seq<ActionStep>, NotationError>)
    ensures r == ScanActions(s)
  {
    var actions: seq<ActionStep> := [];
    var i := 0;
    assert s[0..] == s;
    assert Then([], ScanActions(s)) == ScanActions(s) by {
      if ScanActions(s).Ok? { assert [] + ScanActions(s).value == ScanActions(s).value; }
    }
    while i < |s|
      invariant 0 <= i <= |s|
      invariant ScanActions(s) == Then(actions, ScanActions(s[i..]))
      decreases |s| - i
    {
      var step, used := MatchAt(s[i..]);
      var next := i + used;
      assert s[i..][used..] == s[next..];
      if step.Err? {
        return Err(step.error);
      }
      if step.value.Some? {
        ThenPrepend(actions, step.value.value, ScanActions(s[next..]));
        actions := actions + [step.value.value];
      }
      i := next;
    }
    assert s[i..] == [];
    assert actions + [] == actions;
    return Ok(actions);
  }

  /**
   * One match of the pattern at the start of `t`, using `used` characters:
   * a non-letter is skipped, a letter gives a step, with the card of a group
   * right after it, and a group whose text is not a card is the error
   * `Card.from_str` raises.
   */
  method MatchAt(t: string) returns (step: Result<Option<ActionStep>, NotationError>, used: nat)
    requires t != []
    ensures 0 < used <= |t|
    ensures step.Err? ==> ScanActions(t) == Err(step.error)
    ensures step.Ok? && step.value.None? ==> ScanActions(t) == ScanActions(t[used..])
    ensures step.Ok? && step.value.Some? ==> ScanActions(t) == Prepend(step.value.value, ScanActions(t[used..]))
  {
    ScanActionsUnfold(t);
    var a := ActionFromLetter(t[0]);
    if a.None? {
      return Ok(None), 1;
    }
    var g := CardGroup(t[1..]);
    if g.None? {
      return Ok(Some(ActionStep(a.value, None))), 1;
    }
    var c := FromStr(g.value.0);
    if c.Err? {
      return Err(c.error), 1;
    }
    assert t[1..][g.value.1..] == t[1 + g.value.1..];
    return Ok(Some(ActionStep(a.value, Some(c.value)))), 1 + g.value.1;
  }

  /** How `to_notation` writes one action: a hit with its card as H(card), anything else as its letter. */
  function Token(x: ActionStep): (t: string)
    ensures |t| >= 1 && ActionFromLetter(t[0]) == Some(x.action)
  {
    if x.action == Hit && x.card.Some? then "H(" + CardText(x.card.value) + ")"
    else [ActionLetter(x.action)]
  }

  function ActionsText(steps: seq<ActionStep>): string {
    if steps == [] then [] else ActionsText(steps[..|steps| - 1]) + Token(steps[|steps| - 1])
  }

  lemma ConcatAssoc(a: string, b: string, c: string)
    ensures (a + b) + c == a + (b + c)
  {
  }

  lemma {:induction false} ActionsTextCons(x: ActionStep, xs: seq<ActionStep>)
    ensures ActionsText([x] + xs) == Token(x) + ActionsText(xs)
    decreases |xs|
  {
    var ys := [x] + xs;
    if xs != [] {
      var init := xs[..|xs| - 1];
      var last := xs[|xs| - 1];
      assert ys[..|ys| - 1] == [x] + init && ys[|ys| - 1] == last;
      ActionsTextCons(x, init);
      calc {
        ActionsText(ys);
        ActionsText([x] + init) + Token(last);
        (Token(x) + ActionsText(init)) + Token(last);
        { ConcatAssoc(Token(x), ActionsText(init), Token(last)); }
        Token(x) + (ActionsText(init) + Token(last));
        Token(x) + ActionsText(xs);
      }
    } else {
      assert ys[..0] == [] && ys[0] == x;
      assert ActionsText(ys) == ActionsText([]) + Token(x);
      assert Token(x) + [] == Token(x);
    }
  }

  /** What the notation keeps of a step: the card of a hit, and nothing of any other action. */
  function Kept(x: ActionStep): ActionStep {
    ActionStep(x.action, if x.action == Hit then x.card else None)
  }

  function KeptSteps(steps: seq<ActionStep>): (r: seq<ActionStep>)
    ensures |r| == |steps| && forall i :: 0 <= i < |steps| ==> r[i] == Kept(steps[i])
  {
    seq(|steps|, i requires 0 <= i < |steps| => Kept(steps[i]))
  }

  predicate PrintableCards(steps: seq<ActionStep>) {
    forall i :: 0 <= i < |steps| && steps[i].card.Some? ==> Printable(steps[i].card.value)
  }

  /**
   * Reading back the written actions gives every action in order, with the
   * card of each hit that had one; the cards of other actions are not
   * written and so not read.
   */
  lemma {:induction false} ScanActionsText(steps: seq<ActionStep>)
    requires PrintableCards(steps)
    ensures ScanActions(ActionsText(steps)) == Ok(KeptSteps(steps))
    decreases |steps|
  {
    if steps != [] {
      var x, xs := steps[0], steps[1..];
      assert steps == [x] + xs;
      ActionsTextCons(x, xs);
      assert PrintableCards(xs) by {
        forall i | 0 <= i < |xs| && xs[i].card.Some? ensures Printable(xs[i].card.value) {
          assert xs[i] == steps[i + 1];
        }
      }
      ScanActionsText(xs);
      ActionsTextStart(xs);
      ScanToken(x, ActionsText(xs));
      assert KeptSteps(steps) == [Kept(x)] + KeptSteps(xs) by {
        forall i | 1 <= i < |steps|
          ensures KeptSteps(steps)[i] == KeptSteps(xs)[i - 1]
        {
          assert steps[i] == xs[i - 1];
        }
      }
    } else {
      assert ActionsText(steps) == [];
    }
  }

  /** A hit written with its card reads back as that hit and card. */
  lemma ScanHitWithCard(c: NCard, rest: string)
    requires Printable(c)
    ensures ScanActions("H(" + CardText(c) + ")" + rest) == Prepend(ActionStep(Hit, Some(c)), ScanActions(rest))
  {
    var t := "H(" + CardText(c) + ")" + rest;
    var u := t[1..];
    assert t[0] == 'H';
    assert u == ['(', c.rank, c.suit, ')'] + rest;
    assert u[1..] == [c.rank, c.suit, ')'] + rest;
    assert u[1..][..2] == [c.rank, c.suit];
    IndexOfFirst(u[1..], ')', 2);
    assert u[1..3] == [c.rank, c.suit];
    var g := CardGroup(u);
    assert g == Some(([c.rank, c.suit], 4));
    FromStrCardText(c);
    assert u[4..] == rest;
  }

  /** A bare action letter, followed by more written actions, reads back as that action alone. */
  lemma ScanLetter(a: Action, rest: string)
    requires rest == [] || rest[0] != '('
    ensures ScanActions([ActionLetter(a)] + rest) == Prepend(ActionStep(a, None), ScanActions(rest))
  {
    var t := [ActionLetter(a)] + rest;
    assert t[0] == ActionLetter(a) && t[1..] == rest;
    assert CardGroup(rest).None?;
  }

  /** One written action, followed by more written actions, reads back as its kept step. */
  lemma ScanToken(x: ActionStep, rest: string)
    requires x.card.Some? ==> Printable(x.card.value)
    requires rest == [] || rest[0] != '('
    ensures ScanActions(Token(x) + rest) == Prepend(Kept(x), ScanActions(rest))
  {
    if x.action == Hit && x.card.Some? {
      ScanHitWithCard(x.card.value, rest);
    } else {
      ScanLetter(x.action, rest);
    }
  }

  /** Written actions start with an action letter, never with a parenthesis. */
  lemma ActionsTextStart(steps: seq<ActionStep>)
    ensures ActionsText(steps) == [] || ActionFromLetter(ActionsText(steps)[0]).Some?
    ensures ActionsText(steps) == [] || ActionsText(steps)[0] != '('
  {
    if steps != [] {
      ActionsTextCons(steps[0], steps[1..]);
      assert steps == [steps[0]] + steps[1..];
      var a := steps[0].action;
      assert ActionsText(steps)[0] == ActionLetter(a);
      assert ActionLetter(a) != '(';
    }
  }

  /** `Hand.to_notation`: the initial cards joined by commas, a colon, then the written actions. */
  method HandToNotation(initialCards: seq<NCard>, steps: seq<ActionStep>) returns (s: string)
    ensures s == Join(CardTexts(initialCards), ',') + ":" + ActionsText(steps)
  {
    var actions: string := [];
    var i := 0;
    while i < |steps|
      invariant 0 <= i <= |steps|
      invariant actions == ActionsText(steps[..i])
    {
      assert steps[..i + 1][..i] == steps[..i];
      var x := steps[i];
      if x.action == Hit && x.card.Some? {
        actions := actions + "H(" + CardText(x.card.value) + ")";
      } else {
        actions := actions + [ActionLetter(x.action)];
      }
      i := i + 1;
    }
    assert steps[..i] == steps;
    s := Join(CardTexts(initialCards), ',') + ":" + actions;
  }
}
