/**
 * The reader of the directive format for blackjack test cases: a file of
 * `@deck:`, `@rules:`, `@expect_actions:`, `@expect_outcome:` and
 * `@expect_value:` lines, in which each `@deck:` line opens a new case and a
 * blank or comment line closes the open case once it has cards.
 */
module TestParser {
  import opened Wrappers
  import opened Cards
  import Text
  import Notation

  // ---------------------------------------------------------------------------
  // Cards of a deck line
  // ---------------------------------------------------------------------------

  /** A card the deck table can name: suited and not a joker. */
  predicate Codable(c: Card) {
    c.suit.Some? && c.rank != Joker
  }

  /** The rank table of a deck line. */
  function RankFromText(s: string): (r: Option<Rank>)
    ensures r.Some? ==> r.value != Joker
  {
    if s == "A" then Some(Ace)
    else if s == "2" then Some(Two)
    else if s == "3" then Some(Three)
    else if s == "4" then Some(Four)
    else if s == "5" then Some(Five)
    else if s == "6" then Some(Six)
    else if s == "7" then Some(Seven)
    else if s == "8" then Some(Eight)
    else if s == "9" then Some(Nine)
    else if s == "T" || s == "10" || s == "J" || s == "Q" || s == "K" then Some(Ten)
    else None
  }

  /**
   * The rank table reads `A` as the ace, each of `T`, `10`, `J`, `Q` and `K`
   * as the ten-valued rank, any other rank by its own numeral, and nothing
   * else; in particular the ace's `rank_str`, "1", names no rank here.
   */
  lemma RankSpellings(s: string)
    ensures RankFromText(s) == Some(Ace) <==> s == "A"
    ensures RankFromText(s) == Some(Ten) <==> s in {"T", "10", "J", "Q", "K"}
    ensures RankFromText(s).Some? && RankFromText(s).value !in {Ace, Ten} ==> s == RankText(RankFromText(s).value)
    ensures forall r: Rank :: r !in {Ace, Ten, Joker} && s == RankText(r) ==> RankFromText(s) == Some(r)
    ensures RankFromText("1") == None
  {
  }

  /** The suit table of a deck line. */
  function SuitFromChar(c: char): (r: Option<Suit>)
    ensures r.Some? <==> c in "shdc"
  {
    match c
    case 's' => Some(Spades)
    case 'h' => Some(Hearts)
    case 'd' => Some(Diamonds)
    case 'c' => Some(Clubs)
    case _ => None
  }

  /** The letter of a suit in a deck line. */
  function SuitChar(s: Suit): (c: char)
    ensures SuitFromChar(c) == Some(s)
  {
    match s
    case Spades => 's'
    case Hearts => 'h'
    case Diamonds => 'd'
    case Clubs => 'c'
  }

  /** One deck token: all but the last character name the rank, the last one the suit. */
  function DeckToken(tok: string): (r: Option<Card>)
    ensures r.Some? ==> Codable(r.value)
  {
    if |tok| < 2 then None
    else
      match (RankFromText(tok[..|tok| - 1]), SuitFromChar(tok[|tok| - 1]))
      case (Some(rank), Some(suit)) => Some(Card(Some(suit), rank))
      case _ => None
  }

  /** A token is read exactly when it has a known rank followed by a known suit letter, and as that card. */
  lemma DeckTokenReads(tok: string)
    ensures DeckToken(tok).Some? <==>
              (|tok| >= 2 && RankFromText(tok[..|tok| - 1]).Some? && SuitFromChar(tok[|tok| - 1]).Some?)
    ensures DeckToken(tok).Some? ==>
              DeckToken(tok).value == Card(SuitFromChar(tok[|tok| - 1]), RankFromText(tok[..|tok| - 1]).value)
  {
  }

  /** The cards of the comma-separated tokens, each stripped first; unreadable tokens are dropped. */
  function DeckCards(tokens: seq<string>): (cards: seq<Card>)
    ensures |cards| <= |tokens|
    ensures forall c :: c in cards ==> Codable(c)
  {
    if tokens == [] then []
    else
      var init := DeckCards(tokens[..|tokens| - 1]);
      var card := DeckToken(Text.Strip(tokens[|tokens| - 1]));
      if card.Some? then init + [card.value] else init
  }

  /** `_parse_deck`: split at the commas, strip each token and keep the readable ones in order. */
  method ParseDeck(deckStr: string) returns (cards: seq<Card>)
    ensures cards == DeckCards(Text.Split(deckStr, ','))
  {
    var tokens := Text.Split(deckStr, ',');
    cards := [];
    for i := 0 to |tokens|
      invariant cards == DeckCards(tokens[..i])
    {
      assert tokens[..i + 1][..i] == tokens[..i];
      var card := DeckToken(Text.Strip(tokens[i]));
      if card.Some? {
        cards := cards + [card.value];
      }
    }
    assert tokens[..|tokens|] == tokens;
  }

  /** The short code of a rank: `A`, `2`..`9` or `T`. */
  function RankCode(r: Rank): (s: string)
    requires r != Joker
    ensures RankFromText(s) == Some(r)
    ensures |s| == 1
  {
    if r == Ace then "A" else RankText(r)
  }

  /** The token of a card, as a deck line writes it. */
  function CardCode(c: Card): (s: string)
    requires Codable(c)
    ensures DeckToken(s) == Some(c)
    ensures Text.Stripped(s) && ',' !in s
  {
    var s := RankCode(c.rank) + [SuitChar(c.suit.value)];
    assert s[..|s| - 1] == RankCode(c.rank);
    s
  }

  function CardCodes(cards: seq<Card>): (ts: seq<string>)
    requires forall c :: c in cards ==> Codable(c)
    ensures |ts| == |cards|
    ensures forall t :: t in ts ==> ',' !in t
  {
    if cards == [] then []
    else CardCodes(cards[..|cards| - 1]) + [CardCode(cards[|cards| - 1])]
  }

  lemma DeckCardsOfCode(tokens: seq<string>, c: Card)
    requires Codable(c)
    ensures DeckCards(tokens + [CardCode(c)]) == DeckCards(tokens) + [c]
  {
    var all := tokens + [CardCode(c)];
    assert all[..|all| - 1] == tokens;
    Text.StripOfStripped(CardCode(c));
  }

  lemma {:induction false} DeckCardsOfCodes(cards: seq<Card>)
    requires forall c :: c in cards ==> Codable(c)
    ensures DeckCards(CardCodes(cards)) == cards
  {
    if cards != [] {
      var init := cards[..|cards| - 1];
      var last := cards[|cards| - 1];
      assert init + [last] == cards;
      DeckCardsOfCodes(init);
      assert CardCodes(cards) == CardCodes(init) + [CardCode(last)];
      DeckCardsOfCode(CardCodes(init), last);
    }
  }

  /** A deck line written from suited cards reads back as those cards. */
  lemma ParseDeckOfCodes(cards: seq<Card>)
    requires |cards| >= 1 && forall c :: c in cards ==> Codable(c)
    ensures DeckCards(Text.Split(Text.Join(CardCodes(cards), ','), ',')) == cards
  {
    Text.SplitJoin(CardCodes(cards), ',');
    DeckCardsOfCodes(cards);
  }

  /** The ten-valued rank has several spellings in a deck line. */
  lemma TenSpellings()
    ensures DeckToken("Th") == DeckToken("10h") == DeckToken("Kh") == Some(Card(Some(Hearts), Ten))
  {
    assert "10h"[..2] == "10";
    assert "Th"[..1] == "T" && "Kh"[..1] == "K";
  }

  /** The ace is written `A`; a token without a known rank or suit is dropped. */
  lemma UnreadableTokens()
    ensures DeckToken("As") == Some(Card(Some(Spades), Ace))
    ensures DeckToken("Xh") == None && DeckToken("A") == None && DeckToken("1h") == None
  {
    assert "As"[..1] == "A" && "1h"[..1] == "1" && "Xh"[..1] == "X";
  }

  // ---------------------------------------------------------------------------
  // Actions
  // ---------------------------------------------------------------------------

  /** The action table of an actions line: five one-letter codes; insurance has none here. */
  function ActionFromCode(t: string): (r: Option<Notation.Action>)
    ensures r.Some? ==> r.value != Notation.Insurance
  {
    if |t| != 1 then None
    else if t[0] == 'H' then Some(Notation.Hit)
    else if t[0] == 'S' then Some(Notation.Stand)
    else if t[0] == 'D' then Some(Notation.Double)
    else if t[0] == 'P' then Some(Notation.Split)
    else if t[0] == 'R' then Some(Notation.Surrender)
    else None
  }

  /** The table reads each action's letter back as that action, except insurance's `I`, and reads nothing else. */
  lemma ActionCodeReads(t: string)
    ensures ActionFromCode(t).Some? ==> t == [Notation.ActionLetter(ActionFromCode(t).value)]
    ensures forall a :: a != Notation.Insurance && t == [Notation.ActionLetter(a)] ==> ActionFromCode(t) == Some(a)
    ensures t == "I" ==> ActionFromCode(t) == None
  {
  }

  /** The actions of the comma-separated tokens, each stripped first; unknown tokens are dropped. */
  function ActionList(tokens: seq<string>): (actions: seq<Notation.Action>)
    ensures |actions| <= |tokens|
    ensures Notation.Insurance !in actions
  {
    if tokens == [] then []
    else
      var init := ActionList(tokens[..|tokens| - 1]);
      var action := ActionFromCode(Text.Strip(tokens[|tokens| - 1]));
      if action.Some? then init + [action.value] else init
  }

  /** `_parse_actions`. */
  method ParseActions(actionsStr: string) returns (actions: seq<Notation.Action>)
    ensures actions == ActionList(Text.Split(actionsStr, ','))
  {
    var tokens := Text.Split(actionsStr, ',');
    actions := [];
    for i := 0 to |tokens|
      invariant actions == ActionList(tokens[..i])
    {
      assert tokens[..i + 1][..i] == tokens[..i];
      var action := ActionFromCode(Text.Strip(tokens[i]));
      if action.Some? {
        actions := actions + [action.value];
      }
    }
    assert tokens[..|tokens|] == tokens;
  }

  /** The letters of the actions, one token each. */
  function ActionCodes(actions: seq<Notation.Action>): (ts: seq<string>)
    ensures |ts| == |actions|
    ensures forall t :: t in ts ==> ',' !in t
  {
    if actions == [] then []
    else ActionCodes(actions[..|actions| - 1]) + [[Notation.ActionLetter(actions[|actions| - 1])]]
  }

  lemma ActionListOfCode(tokens: seq<string>, a: Notation.Action)
    requires a != Notation.Insurance
    ensures ActionList(tokens + [[Notation.ActionLetter(a)]]) == ActionList(tokens) + [a]
  {
    var code := [Notation.ActionLetter(a)];
    var all := tokens + [code];
    assert all[..|all| - 1] == tokens && all[|all| - 1] == code;
    Text.StripOfStripped(code);
    assert ActionFromCode(code) == Some(a);
  }

  lemma {:induction false} ActionListOfCodes(actions: seq<Notation.Action>)
    requires Notation.Insurance !in actions
    ensures ActionList(ActionCodes(actions)) == actions
  {
    if actions != [] {
      var init := actions[..|actions| - 1];
      var last := actions[|actions| - 1];
      ActionListOfCodes(init);
      assert ActionCodes(actions) == ActionCodes(init) + [[Notation.ActionLetter(last)]];
      ActionListOfCode(ActionCodes(init), last);
      assert init + [last] == actions;
    }
  }

  /** An actions line written from actions other than insurance reads back as those actions. */
  lemma ParseActionsOfCodes(actions: seq<Notation.Action>)
    requires |actions| >= 1 && Notation.Insurance !in actions
    ensures ActionList(Text.Split(Text.Join(ActionCodes(actions), ','), ',')) == actions
  {
    Text.SplitJoin(ActionCodes(actions), ',');
    ActionListOfCodes(actions);
  }

  // ---------------------------------------------------------------------------
  // Directive lines
  // ---------------------------------------------------------------------------

  /** `s.lstrip(ch)`: the string without the leading run of `ch`. */
  function DropLeading(s: string, ch: char): (r: string)
    ensures |r| <= |s| && r == s[|s| - |r|..]
    ensures r == [] || r[0] != ch
    ensures forall i :: 0 <= i < |s| - |r| ==> s[i] == ch
  {
    if s == [] || s[0] != ch then s else DropLeading(s[1..], ch)
  }

  /** `s.rstrip(ch)`: the string without the trailing run of `ch`. */
  function DropTrailing(s: string, ch: char): (r: string)
    ensures |r| <= |s| && r == s[..|r|]
    ensures r == [] || r[|r| - 1] != ch
    ensures forall i :: |r| <= i < |s| ==> s[i] == ch
  {
    if s == [] || s[|s| - 1] != ch then s else DropTrailing(s[..|s| - 1], ch)
  }

  /** The key and the value of a directive: the text either side of the first colon, the key without its `@`s. */
  function DirectiveParts(line: string): (r: Option<(string, string)>)
    ensures r.None? <==> ':' !in line
  {
    match Text.IndexOf(line, ':')
    case None => None
    case Some(k) => Some((Text.Strip(DropTrailing(DropLeading(line[..k], '@'), '@')), Text.Strip(line[k + 1..])))
  }

  /** The key of a directive written as `@key` reads back as `key`. */
  lemma KeyOfField(key: string)
    requires key != [] && Text.Stripped(key) && '@' !in key
    ensures Text.Strip(DropTrailing(DropLeading("@" + key, '@'), '@')) == key
  {
    assert ("@" + key)[1..] == key;
    assert DropLeading("@" + key, '@') == key;
    assert key[|key| - 1] in key;
    assert DropTrailing(key, '@') == key;
    Text.StripOfStripped(key);
  }

  /** The value after the colon and a space reads back as itself. */
  lemma ValueOfField(value: string)
    requires Text.Stripped(value)
    ensures Text.Strip(" " + value) == value
  {
    Text.StripPadded(" ", value, []);
    assert " " + value + [] == " " + value;
  }

  /** A directive line reads as the key and value it was written with. */
  lemma DirectiveOfField(key: string, value: string)
    requires key != [] && Text.Stripped(key) && ':' !in key && '@' !in key && Text.Stripped(value)
    ensures DirectiveParts("@" + key + ": " + value) == Some((key, value))
  {
    var head := "@" + key;
    var tail := " " + value;
    var line := "@" + key + ": " + value;
    assert line == head + [':'] + tail;
    assert line[..|head|] == head;
    assert line[|head| + 1..] == tail;
    Text.IndexOfFirst(line, ':', |head|);
    KeyOfField(key);
    ValueOfField(value);
  }

  // ---------------------------------------------------------------------------
  // The parser state
  // ---------------------------------------------------------------------------

  /** The case being read: the fields each directive sets. */
  datatype CaseDraft = CaseDraft(
    deck: seq<Card>,
    rules: string,
    actions: seq<Notation.Action>,
    outcome: Option<Notation.Outcome>,
    value: Option<int>)

  /** A case as `_start_new_case` opens it: no cards, the empty rules dictionary, no expectations. */
  const FreshCase := CaseDraft([], "{}", [], None, None)

  datatype ParsedCase = ParsedCase(
    name: string,
    deck: seq<Card>,
    rules: string,
    expectedActions: seq<Notation.Action>,
    expectedOutcome: Option<Notation.Outcome>,
    expectedValue: Option<int>)

  datatype ParserState = ParserState(current: Option<CaseDraft>, cases: seq<ParsedCase>)

  /** `int(value)` failing on an `@expect_value:` line. */
  datatype ParseError = InvalidValue(text: string)

  const Initial := ParserState(None, [])

  /** `_is_case_complete`: a case is open and has at least one card. */
  predicate Complete(st: ParserState) {
    st.current.Some? && |st.current.value.deck| > 0
  }

  /** The hand part of a test name: both player cards, then the dealer's up card. */
  function HandShown(deck: seq<Card>): string
    requires |deck| >= 4
  {
    RankText(deck[0].rank) + RankText(deck[2].rank) + " vs " + RankText(deck[1].rank)
  }

  /** The parts of a generated name, in order. */
  function NameParts(d: CaseDraft): seq<string> {
    (if |d.deck| >= 4 then [HandShown(d.deck)] else [])
    + (if d.actions != [] then ["expect " + Text.Join(ActionCodes(d.actions), ',')] else [])
    + (if d.outcome.Some? then ["-> " + Notation.OutcomeText(d.outcome.value)] else [])
  }

  /** `_generate_test_name`: the parts joined by spaces, or a numbered name when there are none. */
  function GenerateTestName(d: CaseDraft, count: nat): string {
    var parts := NameParts(d);
    if parts == [] then "Test Case " + Text.NatToString(count + 1) else Text.Join(parts, ' ')
  }

  /** A name starts with the hand when the deck has four cards, else with the expected actions when there are some. */
  lemma TestNameLeads(d: CaseDraft, count: nat)
    ensures |d.deck| >= 4 ==> Text.StartsWith(GenerateTestName(d, count), HandShown(d.deck))
    ensures |d.deck| < 4 && d.actions != [] ==> Text.StartsWith(GenerateTestName(d, count), "expect ")
  {
    var parts := NameParts(d);
    if |parts| >= 2 {
      Text.JoinFirst(parts, ' ');
      assert Text.StartsWith(Text.Join(parts, ' '), parts[0]);
    }
  }

  /** Without a hand or actions a name is the outcome alone; a case with none of the three is named by its position, counting from one. */
  lemma TestNameFallback(d: CaseDraft, count: nat)
    requires |d.deck| < 4 && d.actions == []
    ensures d.outcome.Some? ==> GenerateTestName(d, count) == "-> " + Notation.OutcomeText(d.outcome.value)
    ensures d.outcome.None? ==> GenerateTestName(d, count) == "Test Case " + Text.NatToString(count + 1)
  {
  }

  /** `_finalize_case`: the open case, named, joins the list and no case is open. */
  function Finalize(st: ParserState): ParserState {
    match st.current
    case None => st
    case Some(d) =>
      ParserState(None, st.cases + [ParsedCase(GenerateTestName(d, |st.cases|), d.deck, d.rules, d.actions, d.outcome, d.value)])
  }

  /** Finalizing keeps the cases read and appends the open case with all its fields. */
  lemma FinalizeAppends(st: ParserState)
    ensures Finalize(st).current.None?
    ensures st.current.None? ==> Finalize(st) == st
    ensures st.current.Some? ==>
              (var d := st.current.value; var r := Finalize(st);
               |r.cases| == |st.cases| + 1 && r.cases[..|st.cases|] == st.cases
               && var c := r.cases[|st.cases|];
               c.deck == d.deck && c.rules == d.rules && c.expectedActions == d.actions
               && c.expectedOutcome == d.outcome && c.expectedValue == d.value)
  {
    if st.current.Some? {
      var r := Finalize(st);
      assert r.cases[..|st.cases|] == st.cases;
    }
  }

  /** A case is closed only once it has cards. */
  function FinalizeIfComplete(st: ParserState): ParserState {
    if Complete(st) then Finalize(st) else st
  }

  /** `_start_new_case`: close the open case if it has cards (otherwise it is discarded) and open a fresh one. */
  function StartCase(st: ParserState): ParserState {
    ParserState(Some(FreshCase), FinalizeIfComplete(st).cases)
  }

  /** The key of a directive line, if it has a colon. */
  function KeyOf(line: string): Option<string> {
    match DirectiveParts(line)
    case Some((key, _)) => Some(key)
    case None => None
  }

  /**
   * The field a non-`deck` directive sets on the open case: the rules text,
   * the expected actions, the expected outcome (none for an unknown code) or
   * the expected value, whose text must be an integer; other keys change nothing.
   */
  function SetField(d: CaseDraft, key: string, value: string): Result<CaseDraft, ParseError> {
    if key == "rules" then Ok(d.(rules := value))
    else if key == "expect_actions" then Ok(d.(actions := ActionList(Text.Split(value, ','))))
    else if key == "expect_outcome" then Ok(d.(outcome := Notation.OutcomeFromText(value)))
    else if key == "expect_value" then
      match Text.ParseInt(value)
      case Ok(n) => Ok(d.(value := Some(n)))
      case Err(_) => Err(InvalidValue(value))
    else Ok(d)
  }

  /** Only an unreadable expected value fails; the deck is never touched; an unknown key changes nothing. */
  lemma SetFieldEffect(d: CaseDraft, key: string, value: string)
    ensures SetField(d, key, value).Err? <==> key == "expect_value" && Text.ParseInt(value).Err?
    ensures SetField(d, key, value).Ok? ==> SetField(d, key, value).value.deck == d.deck
    ensures key == "expect_value" && Text.ParseInt(value).Ok? ==>
              SetField(d, key, value) == Ok(d.(value := Some(Text.ParseInt(value).value)))
    ensures key !in {"rules", "expect_actions", "expect_outcome", "expect_value"} ==> SetField(d, key, value) == Ok(d)
  {
  }

  /** `_start_new_case` and `_parse_deck` for an `@deck:` line holding `value`. */
  function OpenStep(st: ParserState, value: string): ParserState {
    ParserState(Some(FreshCase.(deck := DeckCards(Text.Split(value, ',')))), FinalizeIfComplete(st).cases)
  }

  /** A field directive sets its field on the open case; with no case open it is ignored. */
  function FieldStep(st: ParserState, key: string, value: string): Result<ParserState, ParseError> {
    if st.current.None? then Ok(st)
    else
      match SetField(st.current.value, key, value)
      case Ok(d) => Ok(st.(current := Some(d)))
      case Err(e) => Err(e)
  }

  /** `_parse_directive`: `deck` opens a case holding the cards; other keys set a field of the open case, if any. */
  function ApplyDirective(st: ParserState, line: string): Result<ParserState, ParseError> {
    match DirectiveParts(line)
    case None => Ok(st)
    case Some((key, value)) =>
      if key == "deck" then Ok(OpenStep(st, value)) else FieldStep(st, key, value)
  }

  /** A `deck` directive closes a complete case and opens one holding the line's cards. */
  lemma DeckDirective(st: ParserState, line: string)
    requires KeyOf(line) == Some("deck")
    ensures ApplyDirective(st, line).Ok?
    ensures ApplyDirective(st, line).value.cases == StartCase(st).cases
    ensures ApplyDirective(st, line).value.current ==
              Some(FreshCase.(deck := DeckCards(Text.Split(DirectiveParts(line).value.1, ','))))
  {
  }

  /** A field directive fails only on an unreadable expected value with a case open, and otherwise keeps the cases and the cards. */
  lemma FieldStepEffect(st: ParserState, key: string, value: string)
    ensures FieldStep(st, key, value).Err? <==>
              (key == "expect_value" && st.current.Some? && Text.ParseInt(value).Err?)
    ensures FieldStep(st, key, value).Ok? ==>
              (var r := FieldStep(st, key, value).value;
               r.cases == st.cases && r.current.Some? == st.current.Some?
               && (r.current.Some? ==> r.current.value.deck == st.current.value.deck))
  {
    if st.current.Some? {
      SetFieldEffect(st.current.value, key, value);
    }
  }

  /** Any other directive line fails only on an unreadable expected value with a case open, and otherwise keeps the cases and the cards. */
  lemma FieldDirective(st: ParserState, line: string)
    requires KeyOf(line) != Some("deck")
    ensures ApplyDirective(st, line).Err? <==>
              (KeyOf(line) == Some("expect_value") && st.current.Some?
               && Text.ParseInt(DirectiveParts(line).value.1).Err?)
    ensures ApplyDirective(st, line).Ok? ==>
              (var r := ApplyDirective(st, line).value;
               r.cases == st.cases && r.current.Some? == st.current.Some?
               && (r.current.Some? ==> r.current.value.deck == st.current.value.deck))
  {
    match DirectiveParts(line)
    case None =>
    case Some((key, value)) =>
      FieldStepEffect(st, key, value);
  }

  /** One line of the file, stripped: a blank or comment line closes a complete case, an `@` line is a directive. */
  function StepLine(st: ParserState, raw: string): Result<ParserState, ParseError> {
    var line := Text.Strip(raw);
    if line == [] || line[0] == '#' then Ok(FinalizeIfComplete(st))
    else if line[0] == '@' then ApplyDirective(st, line)
    else Ok(st)
  }

  /** The state after the lines in order, or the first error. */
  function RunLines(st: ParserState, lines: seq<string>): Result<ParserState, ParseError> {
    if lines == [] then Ok(st)
    else
      match RunLines(st, lines[..|lines| - 1])
      case Ok(s) => StepLine(s, lines[|lines| - 1])
      case Err(e) => Err(e)
  }

  /** `parse_file` on the lines of a file: run every line from the empty state, then close a complete last case. */
  function ParseCases(lines: seq<string>): Result<seq<ParsedCase>, ParseError> {
    match RunLines(Initial, lines)
    case Ok(s) => Ok(FinalizeIfComplete(s).cases)
    case Err(e) => Err(e)
  }

  // ---------------------------------------------------------------------------
  // What the parser guarantees
  // ---------------------------------------------------------------------------

  /** Every case kept has at least one card, and every card is suited and not a joker. */
  ghost predicate CasesHaveCards(cases: seq<ParsedCase>) {
    forall c :: c in cases ==> |c.deck| > 0 && forall k :: k in c.deck ==> Codable(k)
  }

  ghost predicate Sound(st: ParserState) {
    CasesHaveCards(st.cases)
    && (st.current.Some? ==> forall k :: k in st.current.value.deck ==> Codable(k))
  }

  lemma FinalizeIfCompleteSound(st: ParserState)
    requires Sound(st)
    ensures Sound(FinalizeIfComplete(st))
  {
    if Complete(st) {
      FinalizeAppends(st);
      var r := Finalize(st);
      assert r.cases == st.cases + [r.cases[|st.cases|]];
    }
  }

  lemma DirectiveSound(st: ParserState, line: string)
    requires Sound(st)
    ensures ApplyDirective(st, line).Ok? ==> Sound(ApplyDirective(st, line).value)
  {
    if KeyOf(line) == Some("deck") {
      DeckDirective(st, line);
      FinalizeIfCompleteSound(st);
    } else {
      FieldDirective(st, line);
    }
  }

  lemma StepLineSound(st: ParserState, raw: string)
    requires Sound(st)
    ensures StepLine(st, raw).Ok? ==> Sound(StepLine(st, raw).value)
  {
    var line := Text.Strip(raw);
    if line == [] || line[0] == '#' {
      FinalizeIfCompleteSound(st);
    } else if line[0] == '@' {
      DirectiveSound(st, line);
    }
  }

  lemma {:induction false} RunLinesSound(lines: seq<string>)
    ensures RunLines(Initial, lines).Ok? ==> Sound(RunLines(Initial, lines).value)
  {
    if lines != [] {
      RunLinesSound(lines[..|lines| - 1]);
      match RunLines(Initial, lines[..|lines| - 1])
      case Ok(s) => StepLineSound(s, lines[|lines| - 1]);
      case Err(_) =>
    }
  }

  /** Every case read has cards, all suited and none a joker. */
  lemma ParsedCasesHaveCards(lines: seq<string>)
    ensures ParseCases(lines).Ok? ==> CasesHaveCards(ParseCases(lines).value)
  {
    RunLinesSound(lines);
    match RunLines(Initial, lines)
    case Ok(s) => FinalizeIfCompleteSound(s);
    case Err(_) =>
  }

  /** A line that opens a case. */
  predicate IsDeckLine(raw: string) {
    var line := Text.Strip(raw);
    line != [] && line[0] == '@' && KeyOf(line) == Some("deck")
  }

  /** The number of lines that open a case. */
  function DeckLines(lines: seq<string>): (n: nat)
    ensures n <= |lines|
  {
    if lines == [] then 0
    else DeckLines(lines[..|lines| - 1]) + (if IsDeckLine(lines[|lines| - 1]) then 1 else 0)
  }

  /** The cases kept and the case open. */
  function Opened(st: ParserState): nat {
    |st.cases| + (if st.current.Some? then 1 else 0)
  }

  lemma FinalizeIfCompleteOpens(st: ParserState)
    ensures Opened(FinalizeIfComplete(st)) == Opened(st)
  {
    FinalizeAppends(st);
  }

  lemma DirectiveOpens(st: ParserState, line: string)
    ensures ApplyDirective(st, line).Ok? ==>
              Opened(ApplyDirective(st, line).value) <= Opened(st) + (if KeyOf(line) == Some("deck") then 1 else 0)
  {
    if KeyOf(line) == Some("deck") {
      DeckDirective(st, line);
      FinalizeIfCompleteOpens(st);
    } else {
      FieldDirective(st, line);
    }
  }

  lemma StepLineOpens(st: ParserState, raw: string)
    ensures StepLine(st, raw).Ok? ==> Opened(StepLine(st, raw).value) <= Opened(st) + (if IsDeckLine(raw) then 1 else 0)
  {
    var line := Text.Strip(raw);
    if line == [] || line[0] == '#' {
      FinalizeIfCompleteOpens(st);
    } else if line[0] == '@' {
      DirectiveOpens(st, line);
    }
  }

  lemma {:induction false} RunLinesOpens(lines: seq<string>)
    ensures RunLines(Initial, lines).Ok? ==> Opened(RunLines(Initial, lines).value) <= DeckLines(lines)
  {
    if lines != [] {
      RunLinesOpens(lines[..|lines| - 1]);
      match RunLines(Initial, lines[..|lines| - 1])
      case Ok(s) => StepLineOpens(s, lines[|lines| - 1]);
      case Err(_) =>
    }
  }

  /** There are never more cases than `@deck:` lines; a file without one has no cases. */
  lemma CasesBoundedByDeckLines(lines: seq<string>)
    ensures ParseCases(lines).Ok? ==> |ParseCases(lines).value| <= DeckLines(lines)
  {
    RunLinesOpens(lines);
    match RunLines(Initial, lines)
    case Ok(s) => FinalizeIfCompleteOpens(s);
    case Err(_) =>
  }

  /** Only an `@expect_value:` line with a case open can fail. */
  lemma StepLineErrors(st: ParserState, raw: string)
    ensures StepLine(st, raw).Err? ==> st.current.Some? && KeyOf(Text.Strip(raw)) == Some("expect_value")
  {
    var line := Text.Strip(raw);
    if line == [] || line[0] != '@' {
      assert StepLine(st, raw).Ok?;
    } else {
      assert StepLine(st, raw) == ApplyDirective(st, line);
      if KeyOf(line) == Some("deck") {
        DeckDirective(st, line);
      } else {
        FieldDirective(st, line);
      }
    }
  }

  /** Only an `@expect_value:` line can make the file unreadable. */
  lemma {:induction false} RunLinesErrors(lines: seq<string>)
    ensures RunLines(Initial, lines).Err? ==>
              exists i :: 0 <= i < |lines| && KeyOf(Text.Strip(lines[i])) == Some("expect_value")
  {
    if lines != [] {
      var init := lines[..|lines| - 1];
      RunLinesErrors(init);
      match RunLines(Initial, init)
      case Err(_) =>
        var i :| 0 <= i < |init| && KeyOf(Text.Strip(init[i])) == Some("expect_value");
        assert lines[i] == init[i];
      case Ok(s) =>
        StepLineErrors(s, lines[|lines| - 1]);
    }
  }

  lemma FailedStaysFailed(lines: seq<string>)
    requires lines != [] && RunLines(Initial, lines[..|lines| - 1]).Err?
    ensures RunLines(Initial, lines) == RunLines(Initial, lines[..|lines| - 1])
  {
  }

  /** One more line runs from the state the earlier lines reached. */
  lemma RunLinesStep(lines: seq<string>, i: nat)
    requires i < |lines| && RunLines(Initial, lines[..i]).Ok?
    ensures RunLines(Initial, lines[..i + 1]) == StepLine(RunLines(Initial, lines[..i]).value, lines[i])
  {
    assert lines[..i + 1][..i] == lines[..i];
  }

  /** Once a line fails, the whole file fails with that error. */
  lemma {:induction false} RunLinesStaysFailed(lines: seq<string>, j: nat, k: nat)
    requires j <= k <= |lines| && RunLines(Initial, lines[..j]).Err?
    ensures RunLines(Initial, lines[..k]) == RunLines(Initial, lines[..j])
  {
    if k > j {
      RunLinesStaysFailed(lines, j, k - 1);
      var prefix := lines[..k];
      assert prefix[..|prefix| - 1] == lines[..k - 1];
      FailedStaysFailed(prefix);
    }
  }

  // ---------------------------------------------------------------------------
  // The parser object
  // ---------------------------------------------------------------------------

  /** The field updates of `_parse_directive`, with the actions read by `_parse_actions`. */
  method ApplyField(d: CaseDraft, key: string, value: string) returns (r: Result<CaseDraft, ParseError>)
    ensures r == SetField(d, key, value)
  {
    if key == "rules" {
      r := Ok(d.(rules := value));
    } else if key == "expect_actions" {
      var actions := ParseActions(value);
      r := Ok(d.(actions := actions));
    } else if key == "expect_outcome" {
      r := Ok(d.(outcome := Notation.OutcomeFromText(value)));
    } else if key == "expect_value" {
      var n := Text.ParseInt(value);
      if n.Ok? {
        r := Ok(d.(value := Some(n.value)));
      } else {
        r := Err(InvalidValue(value));
      }
    } else {
      r := Ok(d);
    }
  }

  /** `TestCaseParser`: the open case and the cases read so far. */
  class TestCaseParser {
    var current: Option<CaseDraft>
    var cases: seq<ParsedCase>

    constructor ()
      ensures current.None? && cases == []
    {
      current := None;
      cases := [];
    }

    function State(): ParserState
      reads this
    {
      ParserState(current, cases)
    }

    /** `_is_case_complete`. */
    function IsCaseComplete(): (b: bool)
      reads this
      ensures b <==> Complete(State())
    {
      current.Some? && |current.value.deck| > 0
    }

    /** `_finalize_case`. */
    method FinalizeCase()
      modifies this
      ensures State() == Finalize(old(State()))
    {
      if current.None? {
        return;
      }
      var d := current.value;
      var name := GenerateTestName(d, |cases|);
      cases := cases + [ParsedCase(name, d.deck, d.rules, d.actions, d.outcome, d.value)];
      current := None;
    }

    /** `_start_new_case` followed by the cards of the `@deck:` line. */
    method OpenCase(value: string)
      modifies this
      ensures State() == OpenStep(old(State()), value)
    {
      if IsCaseComplete() {
        FinalizeCase();
      }
      current := Some(FreshCase);
      var deck := ParseDeck(value);
      current := Some(FreshCase.(deck := deck));
    }

    /** A field directive on the open case; an unreadable expected value is reported and changes nothing. */
    method UpdateField(key: string, value: string) returns (err: Option<ParseError>)
      modifies this
      ensures FieldStep(old(State()), key, value).Ok? ==> err.None? && State() == FieldStep(old(State()), key, value).value
      ensures FieldStep(old(State()), key, value).Err? ==> err == Some(FieldStep(old(State()), key, value).error) && State() == old(State())
    {
      err := None;
      if current.Some? {
        var r := ApplyField(current.value, key, value);
        if r.Ok? {
          current := Some(r.value);
        } else {
          err := Some(r.error);
        }
      }
    }

    /** `_parse_directive`. */
    method ParseDirective(line: string) returns (err: Option<ParseError>)
      modifies this
      ensures ApplyDirective(old(State()), line).Ok? ==> err.None? && State() == ApplyDirective(old(State()), line).value
      ensures ApplyDirective(old(State()), line).Err? ==> err == Some(ApplyDirective(old(State()), line).error) && State() == old(State())
    {
      err := None;
      var parts := DirectiveParts(line);
      if parts.None? {
        return;
      }
      var (key, value) := parts.value;
      if key == "deck" {
        OpenCase(value);
      } else {
        err := UpdateField(key, value);
      }
    }

    /** One line of `parse_file`'s loop. */
    method ParseLine(raw: string) returns (err: Option<ParseError>)
      modifies this
      ensures StepLine(old(State()), raw).Ok? ==> err.None? && State() == StepLine(old(State()), raw).value
      ensures StepLine(old(State()), raw).Err? ==> err == Some(StepLine(old(State()), raw).error)
    {
      err := None;
      var line := Text.Strip(raw);
      if line == [] || line[0] == '#' {
        if IsCaseComplete() {
          FinalizeCase();
        }
      } else if line[0] == '@' {
        err := ParseDirective(line);
      }
    }

    /** The loop of `parse_file` over the lines: the state they lead to, or the first error. */
    method ParseAllLines(lines: seq<string>) returns (err: Option<ParseError>)
      modifies this
      ensures err.None? ==> RunLines(Initial, lines) == Ok(State())
      ensures err.Some? ==> RunLines(Initial, lines) == Err(err.value)
    {
      cases := [];
      current := None;
      err := None;
      for i := 0 to |lines|
        invariant err.None?
        invariant RunLines(Initial, lines[..i]) == Ok(State())
      {
        RunLinesStep(lines, i);
        err := ParseLine(lines[i]);
        if err.Some? {
          RunLinesStaysFailed(lines, i + 1, |lines|);
          assert lines[..|lines|] == lines;
          return;
        }
      }
      assert lines[..|lines|] == lines;
    }

    /** `parse_file` on the lines of a file: the cases read, or the error that stopped it. */
    method ParseFile(lines: seq<string>) returns (r: Result<seq<ParsedCase>, ParseError>)
      modifies this
      ensures r == ParseCases(lines)
    {
      var err := ParseAllLines(lines);
      if err.Some? {
        return Err(err.value);
      }
      if IsCaseComplete() {
        FinalizeCase();
      }
      r := Ok(cases);
    }
  }
}
