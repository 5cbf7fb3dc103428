/**
 * The test-case text format of the blackjack notation: a `# Test:` line
 * with the name, then `@deck:`, `@rules:`, `@expect_actions:`,
 * `@expect_outcome:` and, when there is one, `@expect_value:`, one per line.
 */
module TestCaseNotation {
  import opened Wrappers
  import opened Text
  import opened Notation

  /**
   * A scripted test: the deck order, the rule overrides (kept as the text
   * they are written as), the expected decisions, outcome and final value.
   */
  datatype TestCase = TestCase(
    name: string,
    deck: seq<NCard>,
    rules: string,
    expectedActions: seq<Action>,
    expectedOutcome: Outcome,
    expectedValue: Option<int>)

  /** Each action as its one-letter code. */
  function ActionTexts(actions: seq<Action>): (ts: seq<string>)
    ensures |ts| == |actions|
    ensures forall i :: 0 <= i < |actions| ==> ts[i] == [ActionLetter(actions[i])]
  {
    seq(|actions|, i requires 0 <= i < |actions| => [ActionLetter(actions[i])])
  }

  /** The value line is written only when the expected value is truthy: present and not zero. */
  predicate HasValueLine(t: TestCase) {
    t.expectedValue.Some? && t.expectedValue.value != 0
  }

  /** A line of the format: its prefix, a space, then the field's text. */
  function Field(prefix: string, body: string): string {
    prefix + " " + body
  }

  function NotationLines(t: TestCase): (lines: seq<string>)
    ensures |lines| == if HasValueLine(t) then 6 else 5
  {
    [ Field("# Test:", t.name),
      Field("@deck:", Join(CardTexts(t.deck), ',')),
      Field("@rules:", t.rules),
      Field("@expect_actions:", Join(ActionTexts(t.expectedActions), ',')),
      Field("@expect_outcome:", OutcomeText(t.expectedOutcome)) ]
    + (if HasValueLine(t) then [Field("@expect_value:", IntToString(t.expectedValue.value))] else [])
  }

  /** `TestCase.to_notation`: the lines joined by newlines. */
  function ToNotation(t: TestCase): string {
    Join(NotationLines(t), '\n')
  }

  /** What `from_notation` has read so far; a field stays `None` until its line is seen. */
  datatype Draft = Draft(
    name: Option<string>,
    deck: Option<seq<NCard>>,
    rules: Option<string>,
    actions: Option<seq<Action>>,
    outcome: Option<Outcome>,
    value: Option<int>)

  const EmptyDraft := Draft(None, None, None, None, None, None)

  /** `line[k:]`: a slice that starts past the end is empty. */
  function Drop(line: string, k: nat): (r: string)
    ensures |r| == if k <= |line| then |line| - k else 0
    ensures k <= |line| ==> line == line[..k] + r
  {
    if k <= |line| then line[k..] else []
  }

  /** `[Action(a) for a in pieces]`: each piece must be exactly an action code. */
  function ParseActionPieces(pieces: seq<string>): (r: Result<seq<Action>, NotationError>)
    ensures r.Ok? <==> forall i :: 0 <= i < |pieces| ==> ActionFromText(pieces[i]).Some?
    ensures r.Ok? ==> |r.value| == |pieces|
    ensures r.Ok? ==> forall i :: 0 <= i < |pieces| ==> pieces[i] == [ActionLetter(r.value[i])]
  {
    if pieces == [] then Ok([])
    else match ActionFromText(pieces[0])
      case None => Err(InvalidAction(pieces[0]))
      case Some(a) =>
        var rest := ParseActionPieces(pieces[1..]);
        assert forall i :: 1 <= i < |pieces| ==> pieces[1..][i - 1] == pieces[i];
        if rest.Err? then rest else Ok([a] + rest.value)
  }

  /** Which field a line sets: the first of the prefixes, in this order, that the line starts with. */
  datatype LineKind = NameKind | DeckKind | RulesKind | ActionsKind | OutcomeKind | ValueKind | OtherKind

  function KindOf(line: string): (k: LineKind)
    ensures line == [] || line[0] !in "#@" ==> k == OtherKind
  {
    if StartsWith(line, "#") then NameKind
    else if StartsWith(line, "@deck:") then DeckKind
    else if StartsWith(line, "@rules:") then RulesKind
    else if StartsWith(line, "@expect_actions:") then ActionsKind
    else if StartsWith(line, "@expect_outcome:") then OutcomeKind
    else if StartsWith(line, "@expect_value:") then ValueKind
    else OtherKind
  }

  /** One line of `from_notation`; a line of no kind is skipped. */
  function ApplyLine(d: Draft, line: string): (r: Result<Draft, NotationError>)
    ensures KindOf(line) == OtherKind ==> r == Ok(d)
    ensures r.Ok? && KindOf(line) != NameKind ==> r.value.name == d.name
    ensures r.Ok? && KindOf(line) != DeckKind ==> r.value.deck == d.deck
  {
    match KindOf(line)
    case NameKind => Ok(d.(name := Some(Strip(Drop(line, 7)))))
    case DeckKind => SetDeck(d, Drop(line, 6))
    case RulesKind => Ok(d.(rules := Some(Strip(Drop(line, 7)))))
    case ActionsKind => SetActions(d, Drop(line, 16))
    case OutcomeKind => SetOutcome(d, Drop(line, 16))
    case ValueKind => SetValue(d, Drop(line, 14))
    case OtherKind => Ok(d)
  }

  /** `@deck:`: the comma-separated cards, each stripped. */
  function SetDeck(d: Draft, text: string): (r: Result<Draft, NotationError>)
    ensures r.Ok? ==> r.value == d.(deck := r.value.deck) && r.value.deck.Some?
  {
    var cards := ParseCardList(Strip(text));
    if cards.Err? then Err(cards.error) else Ok(d.(deck := Some(cards.value)))
  }

  /** `@expect_actions:`: the comma-separated action codes, not stripped one by one. */
  function SetActions(d: Draft, text: string): (r: Result<Draft, NotationError>)
    ensures r.Ok? ==> r.value == d.(actions := r.value.actions) && r.value.actions.Some?
  {
    var actions := ParseActionPieces(Text.Split(Strip(text), ','));
    if actions.Err? then Err(actions.error) else Ok(d.(actions := Some(actions.value)))
  }

  /** `@expect_outcome:`: exactly one outcome code. */
  function SetOutcome(d: Draft, text: string): (r: Result<Draft, NotationError>)
    ensures r.Ok? ==> r.value == d.(outcome := r.value.outcome) && r.value.outcome.Some?
    ensures r.Err? ==> r == Err(InvalidOutcome(Strip(text)))
  {
    var code := Strip(text);
    var o := OutcomeFromText(code);
    if o.None? then Err(InvalidOutcome(code)) else Ok(d.(outcome := Some(o.value)))
  }

  /** `@expect_value:`: `int` strips the text itself, so stripping it first changes nothing. */
  function SetValue(d: Draft, text: string): (r: Result<Draft, NotationError>)
    ensures r.Ok? ==> r.value == d.(value := r.value.value) && r.value.value.Some?
    ensures r.Err? ==> r == Err(InvalidNumber(text))
  {
    var v := ParseInt(text);
    if v.Err? then Err(InvalidNumber(text)) else Ok(d.(value := Some(v.value)))
  }

  /** A line that has a prefix does not start with a prefix that differs from it at a position both cover. */
  lemma NotPrefix(line: string, p: string, q: string, i: nat)
    requires StartsWith(line, p) && i < |p| && i < |q| && p[i] != q[i]
    ensures !StartsWith(line, q)
  {
    assert line[i] == p[i];
    if |q| <= |line| {
      assert line[..|q|][i] == line[i];
    }
  }

  /** The lines read in order; the first error stops the reading. */
  function ReadLines(lines: seq<string>): Result<Draft, NotationError> {
    if lines == [] then Ok(EmptyDraft)
    else
      var d := ReadLines(lines[..|lines| - 1]);
      if d.Err? then d else ApplyLine(d.value, lines[|lines| - 1])
  }

  /** `cls(**data)`: every field but the expected value must have been read. */
  function Build(d: Draft): (r: Result<TestCase, NotationError>)
    ensures r.Ok? <==> d.name.Some? && d.deck.Some? && d.rules.Some? && d.actions.Some? && d.outcome.Some?
    ensures r.Ok? ==> r.value.expectedValue == d.value
    ensures r.Err? ==> r.error.MissingField?
  {
    if d.name.None? then Err(MissingField("name"))
    else if d.deck.None? then Err(MissingField("deck"))
    else if d.rules.None? then Err(MissingField("rules"))
    else if d.actions.None? then Err(MissingField("expected_actions"))
    else if d.outcome.None? then Err(MissingField("expected_outcome"))
    else Ok(TestCase(d.name.value, d.deck.value, d.rules.value, d.actions.value, d.outcome.value, d.value))
  }

  /** `TestCase.from_notation`: strip the text, split it into lines and read them. */
  function ReadNotation(text: string): (r: Result<TestCase, NotationError>) {
    var d := ReadLines(Text.Split(Strip(text), '\n'));
    if d.Err? then Err(d.error) else Build(d.value)
  }

  /** The loop of `from_notation` over the lines. */
  method FromNotation(text: string) returns (r: Result<TestCase, NotationError>)
    ensures r == ReadNotation(text)
  {
    var lines := Text.Split(Strip(text), '\n');
    var d := EmptyDraft;
    var i := 0;
    assert lines[..0] == [];
    while i < |lines|
      invariant 0 <= i <= |lines|
      invariant ReadLines(lines[..i]) == Ok(d)
    {
      assert lines[..i + 1][..i] == lines[..i];
      var next := ApplyLine(d, lines[i]);
      if next.Err? {
        assert ReadLines(lines[..i + 1]) == next;
        ReadLinesStopsAtError(lines, i + 1);
        return Err(next.error);
      }
      d := next.value;
      i := i + 1;
    }
    assert lines[..i] == lines;
    r := Build(d);
  }

  /** Reading one more line applies it to what was read, unless reading has already failed. */
  lemma ReadLinesStep(lines: seq<string>, i: nat)
    requires i < |lines|
    ensures var d := ReadLines(lines[..i]);
      ReadLines(lines[..i + 1]) == if d.Err? then d else ApplyLine(d.value, lines[i])
  {
    assert lines[..i + 1][..i] == lines[..i];
  }

  /** Once reading has failed, reading further lines keeps the same error. */
  lemma {:induction false} ReadLinesStopsAtError(lines: seq<string>, k: nat)
    requires k <= |lines| && ReadLines(lines[..k]).Err?
    ensures ReadLines(lines) == ReadLines(lines[..k])
    decreases |lines| - k
  {
    if k < |lines| {
      ReadLinesStep(lines, k);
      ReadLinesStopsAtError(lines, k + 1);
    } else {
      assert lines[..k] == lines;
    }
  }

  /**
   * A case `to_notation` can write and `from_notation` can read back: at
   * least one card, all printable, at least one action, and a name and
   * rules text on one line with no surrounding whitespace.
   */
  predicate WellFormed(t: TestCase) {
    && |t.deck| >= 1 && (forall c :: c in t.deck ==> Printable(c))
    && |t.expectedActions| >= 1
    && '\n' !in t.name && Stripped(t.name)
    && '\n' !in t.rules && Stripped(t.rules)
  }

  /** The case as it reads back: an expected value of zero is not written, so it reads back as absent. */
  function Readable(t: TestCase): TestCase {
    t.(expectedValue := if HasValueLine(t) then t.expectedValue else None)
  }

  /** A field line starts with its prefix, and after the prefix come a space and the field's text. */
  lemma FieldPrefix(prefix: string, body: string)
    ensures StartsWith(Field(prefix, body), prefix)
    ensures Drop(Field(prefix, body), |prefix|) == " " + body
  {
    var line := Field(prefix, body);
    assert line[..|prefix|] == prefix;
    assert line[|prefix|..] == " " + body;
  }

  /** Stripping the space after the prefix gives the field's text back. */
  lemma StripSpaced(body: string)
    requires Stripped(body)
    ensures Strip(" " + body) == body
  {
    StripPadded(" ", body, []);
    assert " " + body + [] == " " + body;
  }

  /** What a line of each kind does with the text after its prefix. */
  lemma ApplyOfKind(d: Draft, line: string)
    ensures KindOf(line) == NameKind ==> ApplyLine(d, line) == Ok(d.(name := Some(Strip(Drop(line, 7)))))
    ensures KindOf(line) == DeckKind ==> ApplyLine(d, line) == SetDeck(d, Drop(line, 6))
    ensures KindOf(line) == RulesKind ==> ApplyLine(d, line) == Ok(d.(rules := Some(Strip(Drop(line, 7)))))
    ensures KindOf(line) == ActionsKind ==> ApplyLine(d, line) == SetActions(d, Drop(line, 16))
    ensures KindOf(line) == OutcomeKind ==> ApplyLine(d, line) == SetOutcome(d, Drop(line, 16))
    ensures KindOf(line) == ValueKind ==> ApplyLine(d, line) == SetValue(d, Drop(line, 14))
  {
  }

  /** A `# Test:` line is of that kind: it starts with no earlier prefix. */
  lemma NameLineKind(body: string)
    ensures KindOf(Field("# Test:", body)) == NameKind
  {
    FieldPrefix("# Test:", body);
    assert Field("# Test:", body)[..1] == "#";
  }

  lemma NameLineApplies(d: Draft, body: string)
    ensures ApplyLine(d, Field("# Test:", body)) == Ok(d.(name := Some(Strip(" " + body))))
  {
    NameLineKind(body);
    FieldPrefix("# Test:", body);
    ApplyOfKind(d, Field("# Test:", body));
  }

  /** A `@deck:` line is of that kind: it starts with no earlier prefix. */
  lemma DeckLineKind(body: string)
    ensures KindOf(Field("@deck:", body)) == DeckKind
  {
    FieldPrefix("@deck:", body);
    NotPrefix(Field("@deck:", body), "@deck:", "#", 0);
  }

  lemma DeckLineApplies(d: Draft, body: string)
    ensures ApplyLine(d, Field("@deck:", body)) == SetDeck(d, " " + body)
  {
    DeckLineKind(body);
    FieldPrefix("@deck:", body);
    ApplyOfKind(d, Field("@deck:", body));
  }

  /** A `@rules:` line is of that kind: it starts with no earlier prefix. */
  lemma RulesLineKind(body: string)
    ensures KindOf(Field("@rules:", body)) == RulesKind
  {
    FieldPrefix("@rules:", body);
    NotPrefix(Field("@rules:", body), "@rules:", "#", 0);
    NotPrefix(Field("@rules:", body), "@rules:", "@deck:", 1);
  }

  lemma RulesLineApplies(d: Draft, body: string)
    ensures ApplyLine(d, Field("@rules:", body)) == Ok(d.(rules := Some(Strip(" " + body))))
  {
    RulesLineKind(body);
    FieldPrefix("@rules:", body);
    ApplyOfKind(d, Field("@rules:", body));
  }

  /** A `@expect_actions:` line is of that kind: it starts with no earlier prefix. */
  lemma ActionsLineKind(body: string)
    ensures KindOf(Field("@expect_actions:", body)) == ActionsKind
  {
    FieldPrefix("@expect_actions:", body);
    NotPrefix(Field("@expect_actions:", body), "@expect_actions:", "#", 0);
    NotPrefix(Field("@expect_actions:", body), "@expect_actions:", "@deck:", 1);
    NotPrefix(Field("@expect_actions:", body), "@expect_actions:", "@rules:", 1);
  }

  lemma ActionsLineApplies(d: Draft, body: string)
    ensures ApplyLine(d, Field("@expect_actions:", body)) == SetActions(d, " " + body)
  {
    ActionsLineKind(body);
    FieldPrefix("@expect_actions:", body);
    ApplyOfKind(d, Field("@expect_actions:", body));
  }

  /** A `@expect_outcome:` line is of that kind: it starts with no earlier prefix. */
  lemma OutcomeLineKind(body: string)
    ensures KindOf(Field("@expect_outcome:", body)) == OutcomeKind
  {
    FieldPrefix("@expect_outcome:", body);
    NotPrefix(Field("@expect_outcome:", body), "@expect_outcome:", "#", 0);
    NotPrefix(Field("@expect_outcome:", body), "@expect_outcome:", "@deck:", 1);
    NotPrefix(Field("@expect_outcome:", body), "@expect_outcome:", "@rules:", 1);
    NotPrefix(Field("@expect_outcome:", body), "@expect_outcome:", "@expect_actions:", 8);
  }

  lemma OutcomeLineApplies(d: Draft, body: string)
    ensures ApplyLine(d, Field("@expect_outcome:", body)) == SetOutcome(d, " " + body)
  {
    OutcomeLineKind(body);
    FieldPrefix("@expect_outcome:", body);
    ApplyOfKind(d, Field("@expect_outcome:", body));
  }

  /** A `@expect_value:` line is of that kind: it starts with no earlier prefix. */
  lemma ValueLineKind(body: string)
    ensures KindOf(Field("@expect_value:", body)) == ValueKind
  {
    FieldPrefix("@expect_value:", body);
    NotPrefix(Field("@expect_value:", body), "@expect_value:", "#", 0);
    NotPrefix(Field("@expect_value:", body), "@expect_value:", "@deck:", 1);
    NotPrefix(Field("@expect_value:", body), "@expect_value:", "@rules:", 1);
    NotPrefix(Field("@expect_value:", body), "@expect_value:", "@expect_actions:", 8);
    NotPrefix(Field("@expect_value:", body), "@expect_value:", "@expect_outcome:", 8);
  }

  lemma ValueLineApplies(d: Draft, body: string)
    ensures ApplyLine(d, Field("@expect_value:", body)) == SetValue(d, " " + body)
  {
    ValueLineKind(body);
    FieldPrefix("@expect_value:", body);
    ApplyOfKind(d, Field("@expect_value:", body));
  }

  lemma ReadsName(d: Draft, name: string)
    requires Stripped(name)
    ensures ApplyLine(d, Field("# Test:", name)) == Ok(d.(name := Some(name)))
  {
    NameLineApplies(d, name);
    StripSpaced(name);
  }

  lemma ReadsDeck(d: Draft, deck: seq<NCard>)
    requires |deck| >= 1 && forall c :: c in deck ==> Printable(c)
    ensures ApplyLine(d, Field("@deck:", Join(CardTexts(deck), ','))) == Ok(d.(deck := Some(deck)))
  {
    DeckLineApplies(d, Join(CardTexts(deck), ','));
    SetDeckReads(d, deck);
  }

  lemma SetDeckReads(d: Draft, deck: seq<NCard>)
    requires |deck| >= 1 && forall c :: c in deck ==> Printable(c)
    ensures SetDeck(d, " " + Join(CardTexts(deck), ',')) == Ok(d.(deck := Some(deck)))
  {
    var body := Join(CardTexts(deck), ',');
    assert Strip(" " + body) == body by {
      assert deck[0] in deck && deck[|deck| - 1] in deck;
      JoinLast(CardTexts(deck), ',');
      StripSpaced(body);
    }
    ParseCardListJoin(deck);
  }

  lemma ReadsRules(d: Draft, rules: string)
    requires Stripped(rules)
    ensures ApplyLine(d, Field("@rules:", rules)) == Ok(d.(rules := Some(rules)))
  {
    RulesLineApplies(d, rules);
    StripSpaced(rules);
  }

  lemma ReadsActions(d: Draft, actions: seq<Action>)
    requires |actions| >= 1
    ensures ApplyLine(d, Field("@expect_actions:", Join(ActionTexts(actions), ','))) == Ok(d.(actions := Some(actions)))
  {
    ActionsLineApplies(d, Join(ActionTexts(actions), ','));
    SetActionsReads(d, actions);
  }

  lemma SetActionsReads(d: Draft, actions: seq<Action>)
    requires |actions| >= 1
    ensures SetActions(d, " " + Join(ActionTexts(actions), ',')) == Ok(d.(actions := Some(actions)))
  {
    var body := Join(ActionTexts(actions), ',');
    ActionCodesJoined(actions);
    StripSpaced(body);
    ParseActionTexts(actions);
  }

  /** The joined action codes have no surrounding whitespace and split back into the codes. */
  lemma ActionCodesJoined(actions: seq<Action>)
    requires |actions| >= 1
    ensures Stripped(Join(ActionTexts(actions), ','))
    ensures Text.Split(Join(ActionTexts(actions), ','), ',') == ActionTexts(actions)
  {
    var ts := ActionTexts(actions);
    var first, last := ActionLetter(actions[0]), ActionLetter(actions[|actions| - 1]);
    assert !IsSpace(first) && !IsSpace(last) by {
      LetterNotSpace(actions[0]);
      LetterNotSpace(actions[|actions| - 1]);
    }
    assert ts[0] == [first] && ts[|ts| - 1] == [last];
    JoinLast(ts, ',');
    JoinHead(ts, ',');
    ActionCodesSplit(ts, actions);
  }

  lemma LetterNotSpace(a: Action)
    ensures !IsSpace(ActionLetter(a))
  {
  }

  lemma ActionCodesSplit(ts: seq<string>, actions: seq<Action>)
    requires |actions| >= 1 && ts == ActionTexts(actions)
    ensures Text.Split(Join(ts, ','), ',') == ts
  {
    forall p | p in ts
      ensures ',' !in p
    {
      var i :| 0 <= i < |ts| && ts[i] == p;
    }
    SplitJoin(ts, ',');
  }

  /** Reading the codes of actions gives the actions. */
  lemma ParseActionTexts(actions: seq<Action>)
    ensures ParseActionPieces(ActionTexts(actions)) == Ok(actions)
  {
    var ts := ActionTexts(actions);
    forall i | 0 <= i < |ts|
      ensures ActionFromText(ts[i]) == Some(actions[i])
    {
      assert ts[i] == [ActionLetter(actions[i])];
    }
    var r := ParseActionPieces(ts);
    assert r.Ok? && |r.value| == |actions|;
    forall i | 0 <= i < |ts|
      ensures r.value[i] == actions[i]
    {
      assert ts[i] == [ActionLetter(r.value[i])];
      assert ActionFromLetter(ActionLetter(actions[i])) == Some(r.value[i]);
    }
    assert r.value == actions;
  }

  lemma ReadsOutcome(d: Draft, o: Outcome)
    ensures ApplyLine(d, Field("@expect_outcome:", OutcomeText(o))) == Ok(d.(outcome := Some(o)))
  {
    var code := OutcomeText(o);
    OutcomeLineApplies(d, code);
    OutcomeTextReads(o);
    SetOutcomeReads(d, code, o);
  }

  /** Every outcome code has no surrounding whitespace and reads back as its outcome. */
  lemma OutcomeTextReads(o: Outcome)
    ensures Stripped(OutcomeText(o)) && OutcomeFromText(OutcomeText(o)) == Some(o)
  {
  }

  lemma SetOutcomeReads(d: Draft, code: string, o: Outcome)
    requires Stripped(code) && OutcomeFromText(code) == Some(o)
    ensures SetOutcome(d, " " + code) == Ok(d.(outcome := Some(o)))
  {
    StripSpaced(code);
  }

  lemma ReadsValue(d: Draft, v: int)
    requires v != 0
    ensures ApplyLine(d, Field("@expect_value:", IntToString(v))) == Ok(d.(value := Some(v)))
  {
    var s := IntToString(v);
    ValueLineApplies(d, s);
    assert ParseInt(" " + s) == Ok(v) by {
      ParseIntToString(v);
      StripOfStripped(s);
      StripSpaced(s);
    }
  }

  /** No line of a well-formed case holds a newline, and the text has no surrounding whitespace. */
  lemma NotationTextSplits(t: TestCase)
    requires WellFormed(t)
    ensures Stripped(ToNotation(t))
    ensures Text.Split(ToNotation(t), '\n') == NotationLines(t)
  {
    var lines := NotationLines(t);
    forall p | p in lines
      ensures '\n' !in p
    {
      NewlineFreeLines(t, p);
    }
    SplitJoin(lines, '\n');
    var last := lines[|lines| - 1];
    if HasValueLine(t) {
      assert last == Field("@expect_value:", IntToString(t.expectedValue.value));
    } else {
      assert last == Field("@expect_outcome:", OutcomeText(t.expectedOutcome));
    }
    assert last[|last| - 1] != ' ' && last[|last| - 1] != '\n' && !IsSpace(last[|last| - 1]);
    JoinLast(lines, '\n');
    JoinFirst(lines, '\n');
    assert ToNotation(t)[0] == '#';
  }

  lemma NewlineFreeLines(t: TestCase, p: string)
    requires WellFormed(t) && p in NotationLines(t)
    ensures '\n' !in p
  {
    var ls := NotationLines(t);
    var i :| 0 <= i < |ls| && ls[i] == p;
    if i == 0 {
      FieldOneLine("# Test:", t.name);
    } else if i == 1 {
      CardTextsOneLine(t.deck);
      FieldOneLine("@deck:", Join(CardTexts(t.deck), ','));
    } else if i == 2 {
      FieldOneLine("@rules:", t.rules);
    } else if i == 3 {
      ActionCodesOneLine(t.expectedActions);
      FieldOneLine("@expect_actions:", Join(ActionTexts(t.expectedActions), ','));
    } else if i == 4 {
      FieldOneLine("@expect_outcome:", OutcomeText(t.expectedOutcome));
    } else {
      var digits := IntToString(t.expectedValue.value);
      IntToStringChars(t.expectedValue.value);
      FieldOneLine("@expect_value:", digits);
    }
  }

  lemma FieldOneLine(prefix: string, body: string)
    requires '\n' !in prefix && '\n' !in body
    ensures '\n' !in Field(prefix, body)
  {
  }

  lemma CardTextsOneLine(deck: seq<NCard>)
    requires forall c :: c in deck ==> Printable(c)
    ensures '\n' !in Join(CardTexts(deck), ',')
  {
    var cards := CardTexts(deck);
    forall q | q in cards
      ensures '\n' !in q
    {
      var i :| 0 <= i < |cards| && cards[i] == q;
      assert deck[i] in deck;
    }
    JoinAvoids(cards, ',', '\n');
  }

  lemma ActionCodesOneLine(actions: seq<Action>)
    ensures '\n' !in Join(ActionTexts(actions), ',')
  {
    var codes := ActionTexts(actions);
    forall q | q in codes
      ensures '\n' !in q
    {
      var i :| 0 <= i < |codes| && codes[i] == q;
    }
    JoinAvoids(codes, ',', '\n');
  }

  /** `str` of an integer writes only digits and a minus sign. */
  lemma IntToStringChars(n: int)
    ensures forall i :: 0 <= i < |IntToString(n)| ==> IsDigit(IntToString(n)[i]) || IntToString(n)[i] == '-'
  {
    if n < 0 {
      var s := IntToString(n);
      assert s[1..] == NatToString(-n);
      assert forall i :: 1 <= i < |s| ==> s[i] == s[1..][i - 1];
    }
  }

  /** The drafts `from_notation` holds before each line of a well-formed case and after the last. */
  function Drafts(t: TestCase): (ds: seq<Draft>)
    ensures |ds| == |NotationLines(t)| + 1 && ds[0] == EmptyDraft
  {
    var d1 := EmptyDraft.(name := Some(t.name));
    var d2 := d1.(deck := Some(t.deck));
    var d3 := d2.(rules := Some(t.rules));
    var d4 := d3.(actions := Some(t.expectedActions));
    var d5 := d4.(outcome := Some(t.expectedOutcome));
    [EmptyDraft, d1, d2, d3, d4, d5] + if HasValueLine(t) then [d5.(value := t.expectedValue)] else []
  }

  /** Each line of a well-formed case sets its own field. */
  lemma LineReads(t: TestCase, i: nat)
    requires WellFormed(t) && i < |NotationLines(t)|
    ensures ApplyLine(Drafts(t)[i], NotationLines(t)[i]) == Ok(Drafts(t)[i + 1])
  {
    if i < 3 {
      HeaderLineReads(t, i);
    } else {
      ExpectationLineReads(t, i);
    }
  }

  lemma HeaderLineReads(t: TestCase, i: nat)
    requires WellFormed(t) && i < 3
    ensures ApplyLine(Drafts(t)[i], NotationLines(t)[i]) == Ok(Drafts(t)[i + 1])
  {
    if i == 0 {
      NameLineReads(t);
    } else if i == 1 {
      DeckLineReads(t);
    } else {
      RulesLineReads(t);
    }
  }

  lemma NameLineReads(t: TestCase)
    requires WellFormed(t)
    ensures ApplyLine(Drafts(t)[0], NotationLines(t)[0]) == Ok(Drafts(t)[1])
  {
    var ds := Drafts(t);
    var line := NotationLines(t)[0];
    assert line == Field("# Test:", t.name);
    assert ds[1] == ds[0].(name := Some(t.name));
    ReadsName(ds[0], t.name);
  }

  lemma DeckLineReads(t: TestCase)
    requires WellFormed(t)
    ensures ApplyLine(Drafts(t)[1], NotationLines(t)[1]) == Ok(Drafts(t)[2])
  {
    var ds := Drafts(t);
    var line := NotationLines(t)[1];
    assert line == Field("@deck:", Join(CardTexts(t.deck), ','));
    assert ds[2] == ds[1].(deck := Some(t.deck));
    ReadsDeck(ds[1], t.deck);
  }

  lemma RulesLineReads(t: TestCase)
    requires WellFormed(t)
    ensures ApplyLine(Drafts(t)[2], NotationLines(t)[2]) == Ok(Drafts(t)[3])
  {
    assert NotationLines(t)[2] == Field("@rules:", t.rules);
    ReadsRules(Drafts(t)[2], t.rules);
  }

  lemma ExpectationLineReads(t: TestCase, i: nat)
    requires WellFormed(t) && 3 <= i < |NotationLines(t)|
    ensures ApplyLine(Drafts(t)[i], NotationLines(t)[i]) == Ok(Drafts(t)[i + 1])
  {
    var ds := Drafts(t);
    if i == 3 {
      assert NotationLines(t)[3] == Field("@expect_actions:", Join(ActionTexts(t.expectedActions), ','));
      ReadsActions(ds[3], t.expectedActions);
    } else if i == 4 {
      assert NotationLines(t)[4] == Field("@expect_outcome:", OutcomeText(t.expectedOutcome));
      ReadsOutcome(ds[4], t.expectedOutcome);
    } else {
      assert NotationLines(t)[5] == Field("@expect_value:", IntToString(t.expectedValue.value));
      ReadsValue(ds[5], t.expectedValue.value);
    }
  }

  /** Reading the lines of a well-formed case fills in every field it wrote. */
  lemma ReadsAllLines(t: TestCase)
    requires WellFormed(t)
    ensures ReadLines(NotationLines(t)) == Ok(Draft(
      Some(t.name), Some(t.deck), Some(t.rules), Some(t.expectedActions), Some(t.expectedOutcome),
      Readable(t).expectedValue))
  {
    var lines := NotationLines(t);
    forall i | 0 <= i < |lines|
      ensures ApplyLine(Drafts(t)[i], lines[i]) == Ok(Drafts(t)[i + 1])
    {
      LineReads(t, i);
    }
    ReadLinesAll(lines, Drafts(t));
  }

  /** Lines that each apply cleanly to the draft before them read to the last draft. */
  lemma {:induction false} ReadLinesAll(lines: seq<string>, ds: seq<Draft>)
    requires |ds| == |lines| + 1 && ds[0] == EmptyDraft
    requires forall i :: 0 <= i < |lines| ==> ApplyLine(ds[i], lines[i]) == Ok(ds[i + 1])
    ensures ReadLines(lines) == Ok(ds[|lines|])
    decreases |lines|
  {
    if lines != [] {
      var n := |lines| - 1;
      ReadLinesAll(lines[..n], ds[..n + 1]);
    }
  }

  lemma NotationLinesAt(t: TestCase)
    ensures var lines := NotationLines(t);
      && lines[0] == Field("# Test:", t.name)
      && lines[1] == Field("@deck:", Join(CardTexts(t.deck), ','))
      && lines[2] == Field("@rules:", t.rules)
      && lines[3] == Field("@expect_actions:", Join(ActionTexts(t.expectedActions), ','))
      && lines[4] == Field("@expect_outcome:", OutcomeText(t.expectedOutcome))
      && (HasValueLine(t) ==> lines[5] == Field("@expect_value:", IntToString(t.expectedValue.value)))
  {
  }

  /**
   * `from_notation(to_notation(t))` gives back the name, deck, rules,
   * actions and outcome of a well-formed case, and its expected value
   * unless that was zero.
   */
  lemma FromToNotation(t: TestCase)
    requires WellFormed(t)
    ensures ReadNotation(ToNotation(t)) == Ok(Readable(t))
  {
    NotationTextSplits(t);
    StripOfStripped(ToNotation(t));
    ReadsAllLines(t);
  }

  /** `TestSuite`: the test cases in the order they were added. */
  class TestSuite {
    var tests: seq<TestCase>

    constructor()
      ensures tests == []
    {
      tests := [];
    }

    /** `add_test` appends the case. */
    method AddTest(t: TestCase)
      modifies this
      ensures tests == old(tests) + [t]
    {
      tests := tests + [t];
    }
  }
}
