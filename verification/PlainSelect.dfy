/**
 The numbered select prompt that runs under the live header when the terminal's raw mode cannot be
 engaged: a list printed once, and one line read past the header, which nobody books.
 */
module PlainSelect {
  import opened Wrappers
  import opened Utf8
  import opened Decimal
  import opened Terminal
  import opened RowCount
  import opened SelectBlock
  import opened HeaderPaint
  import opened BlockShow
  import opened Accounting
  import opened HeaderEvents
  import opened HeaderRun
  import opened UnbookedEcho
  import opened OrdinaryRuns

  const STAR: Text := [[0x2A]]
  const CHOICE: Text := [[0x63], [0x68], [0x6F], [0x69], [0x63], [0x65]]
  const CHECK: Text := [[0xE2, 0x9C, 0x93]]

  /** A line that was typed, whether Enter ended it, and the option it was parsed to, if any. */
  datatype Line = Line(typed: Text, entered: bool, chosen: Option<nat>) {
    predicate Ok(options: seq<Choice>) {
      Printable(typed) && (chosen.Some? ==> chosen.value < |options|)
    }
  }

  function Ascii(d: int): (b: byte)
    requires 0 <= d < 10
  {
    (0x30 + d) as byte
  }

  function Numeral(n: nat): (x: Text)
    ensures Printable(x) && |x| == |Digits(n)|
  {
    var ds := Digits(n);
    seq(|ds|, i requires 0 <= i < |ds| => [Ascii(ds[i])])
  }

  /** Indent, marker, number, title and hint of one option. */
  function NumberedText(o: Choice, i: nat, current: bool, color: bool): (ts: seq<Token>) {
    Runes(NumberedTitle(o, i, current))
    + if o.hint == [] then [] else Runes(Spaces(2)) + Styled(color, DIM, o.hint)
  }

  function NumberedTitle(o: Choice, i: nat, current: bool): (x: Text)
    ensures o.Ok() ==> Printable(x)
  {
    Spaces(2) + (if current then STAR else Spaces(1)) + Spaces(1) + Numeral(i + 1) + [[0x29]] + Spaces(1) + o.title
  }

  /** The question and the numbered options. */
  function ListLines(question: Text, options: seq<Choice>, start: nat, color: bool): (ls: seq<seq<Token>>)
    ensures |ls| == 1 + |options|
  {
    [QuestionText(question)]
    + seq(|options|, i requires 0 <= i < |options| => NumberedText(options[i], i, i == start, color))
  }

  /** The open line the answer is typed on. */
  function ChoicePrompt(start: nat): (x: Text) {
    Spaces(2) + CHOICE + Spaces(1) + [[0x5B]] + Numeral(start + 1) + [[0x5D], [0x3A]] + Spaces(1)
  }

  function CheckLine(title: Text, color: bool): (ts: seq<Token>) {
    Runes(Spaces(2)) + (Styled(color, GREEN, CHECK) + Runes(Spaces(1) + title))
  }

  function PrintLines(ls: seq<seq<Token>>): (es: seq<Event>)
    ensures |es| == |ls|
    ensures forall i | 0 <= i < |ls| :: es[i] == PrintAll(ls[i] + [Newline])
  {
    seq(|ls|, i requires 0 <= i < |ls| => PrintAll(ls[i] + [Newline]))
  }

  /** What is read and what follows: the check line, once an option was recognised. */
  function Reply(options: seq<Choice>, start: nat, color: bool, line: Line): (es: seq<Event>)
    requires line.Ok(options)
  {
    [PrintAll(Runes(ChoicePrompt(start)))] + [Echo(line.typed, line.entered)]
    + if line.chosen.None? then [] else [PrintAll(CheckLine(options[line.chosen.value].title, color) + [Newline])]
  }

  /** The events of the prompt. */
  function PlainPrompt(question: Text, options: seq<Choice>, start: nat, color: bool, line: Line): (es: seq<Event>)
    requires line.Ok(options)
  {
    PrintLines(ListLines(question, options, start, color)) + Reply(options, start, color, line)
  }

  // ---------------------------------------------------------------------------------------
  // The text
  // ---------------------------------------------------------------------------------------

  lemma PieceIsLine(line: seq<Token>, k: nat)
    requires Piece(line, k)
    ensures TextLine(line) && Unbroken(line) && PrintAll(line + [Newline]).Ok()
  {
    PrintAllOk(line + [Newline]);
  }

  lemma NumberedIsLine(o: Choice, i: nat, current: bool, color: bool)
    requires o.Ok()
    ensures TextLine(NumberedText(o, i, current, color))
  {
    var x := NumberedTitle(o, i, current);
    RunesPiece(x);
    if o.hint != [] {
      RunesPiece(Spaces(2));
      StyledPiece(color, DIM, o.hint);
      JoinPieces(Runes(Spaces(2)), 2, Styled(color, DIM, o.hint), |o.hint|);
      JoinPieces(Runes(x), |x|, Runes(Spaces(2)) + Styled(color, DIM, o.hint), 2 + |o.hint|);
      PieceIsLine(NumberedText(o, i, current, color), |x| + (2 + |o.hint|));
    } else {
      assert NumberedText(o, i, current, color) == Runes(x);
      PieceIsLine(Runes(x), |x|);
    }
  }

  lemma CheckPiece(title: Text, color: bool)
    requires Printable(title)
    ensures Piece(CheckLine(title, color), 4 + |title|)
  {
    RunesPiece(Spaces(2));
    StyledPiece(color, GREEN, CHECK);
    RunesPiece(Spaces(1) + title);
    JoinPieces(Styled(color, GREEN, CHECK), 1, Runes(Spaces(1) + title), 1 + |title|);
    JoinPieces(Runes(Spaces(2)), 2, Styled(color, GREEN, CHECK) + Runes(Spaces(1) + title), 2 + |title|);
  }

  lemma PromptPiece(start: nat)
    ensures Printable(ChoicePrompt(start)) && |ChoicePrompt(start)| == 13 + |Digits(start + 1)|
    ensures PrintAll(Runes(ChoicePrompt(start))).Ok()
  {
    PrintAllOk(Runes(ChoicePrompt(start)));
  }

  predicate AllLines(ls: seq<seq<Token>>) {
    forall i | 0 <= i < |ls| :: TextLine(ls[i])
  }

  lemma ListIsLines(question: Text, options: seq<Choice>, start: nat, color: bool)
    requires Printable(question) && AllOk(options)
    ensures AllLines(ListLines(question, options, start, color))
  {
    QuestionPiece(question);
    PieceIsLine(QuestionText(question), 2 + |question|);
    forall i | 0 <= i < |options| ensures TextLine(NumberedText(options[i], i, i == start, color)) {
      NumberedIsLine(options[i], i, i == start, color);
    }
  }

  lemma LinesOk(ls: seq<seq<Token>>)
    requires AllLines(ls)
    ensures EventsOk(PrintLines(ls))
  {
    forall i | 0 <= i < |ls| ensures PrintLines(ls)[i].Ok() {
      PrintAllOk(ls[i] + [Newline]);
    }
  }

  // ---------------------------------------------------------------------------------------
  // The count
  // ---------------------------------------------------------------------------------------

  lemma {:induction false} ReplayConcat(c: Course, a: seq<Event>, b: seq<Event>)
    requires EventsOk(a) && EventsOk(b)
    ensures EventsOk(a + b) && ReplayAll(c, a + b) == ReplayAll(ReplayAll(c, a), b)
    decreases |a|
  {
    if a == [] {
      assert a + b == b;
    } else {
      assert (a + b)[1..] == a[1..] + b;
      ReplayConcat(Replay(c, a[0]), a[1..], b);
    }
  }

  /** Printed lines leave a right count right, and the margin. */
  lemma {:induction false} LinesStayEven(c: Course, ls: seq<seq<Token>>)
    requires c.booked == c.truth && AllLines(ls) && EventsOk(PrintLines(ls))
    ensures var d := ReplayAll(c, PrintLines(ls));
            && d.booked == d.truth && d.screen.width == c.screen.width
            && (ls != [] ==> d.truth == Tally(0, d.truth.rows, false))
    decreases |ls|
  {
    if ls != [] {
      var e := PrintAll(ls[0] + [Newline]);
      assert PrintLines(ls)[0] == e && PrintLines(ls)[1..] == PrintLines(ls[1..]);
      LineReplays(c, ls[0]);
      FeedKeepsSize(c.screen, Tokens(e.bytes[..e.accepted]));
      NewlineEndsAtMargin(c.screen.width, c.truth, ls[0] + [Newline]);
      LinesStayEven(Replay(c, e), ls[1..]);
    }
  }

  /** The rows of a prompt of `p` characters, `n` typed ones and a check line of `k`. */
  function ShownRows(w: int, p: nat, n: nat, entered: bool, k: nat): (r: nat) {
    if entered then LineRows(p + n, w) + LineRows(k, w) else LineRows(p + n + k, w)
  }

  lemma ReplyTallies(w: int, r: int, prompt: Text, typed: Text, entered: bool, check: seq<Token>)
    requires Unbroken(check)
    ensures var b := Account(w, Tally(0, r, false), Runes(prompt));
            && Account(w, b, check + [Newline]) == Tally(0, r + LineRows(|prompt| + Visible(check), w), false)
            && Account(w, Account(w, b, Typed(typed, entered)), check + [Newline])
               == Tally(0, r + ShownRows(w, |prompt|, |typed|, entered, Visible(check)), false)
  {
    ReachIsSane(w, r, 0);
    VisibleOfRunes(prompt);
    ReachStretch(w, r, 0, Runes(prompt));
    ReachLine(w, r, |prompt|, check);
    TypedTallies(w, r, |prompt|, typed, entered, check);
  }

  lemma TypedTallies(w: int, r: int, p: nat, typed: Text, entered: bool, check: seq<Token>)
    requires Unbroken(check)
    ensures Account(w, Account(w, Reach(w, r, p), Typed(typed, entered)), check + [Newline])
         == Tally(0, r + ShownRows(w, p, |typed|, entered, Visible(check)), false)
  {
    EchoIsApart(w, Reach(w, r, p), Reach(w, r, p), Uneven(r, p, 0, p), typed, entered);
    if entered {
      ReachLine(w, r + LineRows(p + |typed|, w), 0, check);
    } else {
      ReachLine(w, r, p + |typed|, check);
    }
  }

  lemma ThreeEvents(c: Course, a: Event, b: Event, e: Event)
    requires a.Ok() && b.Ok() && e.Ok()
    ensures EventsOk([a] + [b] + [e]) && ReplayAll(c, [a] + [b] + [e]) == Replay(Replay(Replay(c, a), b), e)
  {
    ReplayOne(c, a);
    ReplayOne(Replay(c, a), b);
    ReplayOne(Replay(Replay(c, a), b), e);
    ReplayConcat(c, [a], [b]);
    ReplayConcat(c, [a] + [b], [e]);
  }

  lemma ReplayOne(c: Course, e: Event)
    requires e.Ok()
    ensures EventsOk([e]) && ReplayAll(c, [e]) == Replay(c, e)
  {
    assert [e][1..] == [];
    assert ReplayAll(Replay(c, e), []) == Replay(c, e);
  }

  /** Prompt, answer and check line, whatever they say. */
  lemma ReplyReplays(c: Course, prompt: Text, typed: Text, entered: bool, check: seq<Token>)
    requires c.booked == c.truth == Tally(0, c.truth.rows, false)
    requires Printable(prompt) && Printable(typed) && TextLine(check)
    ensures var es := [PrintAll(Runes(prompt))] + [Echo(typed, entered)] + [PrintAll(check + [Newline])];
            EventsOk(es) &&
            var d, w := ReplayAll(c, es), c.screen.width;
            && d.onFreshLine && d.booked == Tally(0, c.truth.rows + LineRows(|prompt| + Visible(check), w), false)
            && d.truth == Tally(0, c.truth.rows + ShownRows(w, |prompt|, |typed|, entered, Visible(check)), false)
  {
    AskCounts(c, prompt);
    PrintAllOk(check + [Newline]);
    ThreeEvents(c, PrintAll(Runes(prompt)), Echo(typed, entered), PrintAll(check + [Newline]));
    TypedReplays(Replay(c, PrintAll(Runes(prompt))), c.screen.width, c.truth.rows, prompt, typed, entered, check);
  }

  lemma AskCounts(c: Course, prompt: Text)
    requires c.booked == c.truth && Printable(prompt)
    ensures PrintAll(Runes(prompt)).Ok()
    ensures var d := Replay(c, PrintAll(Runes(prompt)));
            d.booked == d.truth == Account(c.screen.width, c.truth, Runes(prompt)) && d.screen.width == c.screen.width
  {
    PrintAllOk(Runes(prompt));
    FeedKeepsSize(c.screen, Runes(prompt));
  }

  lemma TypedReplays(c: Course, w: int, r: int, prompt: Text, typed: Text, entered: bool, check: seq<Token>)
    requires c.screen.width == w && c.booked == c.truth == Account(w, Tally(0, r, false), Runes(prompt))
    requires Printable(typed) && TextLine(check)
    ensures var d := EchoThenLine(c, typed, entered, check);
            && d.onFreshLine && d.booked == Tally(0, r + LineRows(|prompt| + Visible(check), w), false)
            && d.truth == Tally(0, r + ShownRows(w, |prompt|, |typed|, entered, Visible(check)), false)
  {
    ReplyTallies(w, r, prompt, typed, entered, check);
  }

  /** From the margin: the prompt, the answer that nobody books, and the check line. */
  lemma ReplyCounts(c: Course, options: seq<Choice>, start: nat, color: bool, line: Line, p: nat, k: nat)
    requires c.booked == c.truth == Tally(0, c.truth.rows, false) && AllOk(options) && line.Ok(options)
    requires line.chosen.Some? && p == |ChoicePrompt(start)| && k == 4 + |options[line.chosen.value].title|
    ensures EventsOk(Reply(options, start, color, line))
    ensures var d, w := ReplayAll(c, Reply(options, start, color, line)), c.screen.width;
            && d.onFreshLine && d.booked == Tally(0, c.truth.rows + LineRows(p + k, w), false)
            && d.truth == Tally(0, c.truth.rows + ShownRows(w, p, |line.typed|, line.entered, k), false)
  {
    var check := CheckLine(options[line.chosen.value].title, color);
    CheckPiece(options[line.chosen.value].title, color);
    PieceIsLine(check, k);
    PromptPiece(start);
    ReplyReplays(c, ChoicePrompt(start), line.typed, line.entered, check);
  }

  /** The numbered prompt, from a right count: once its check line is printed the count is right if and only
      if the lines of prompt, answer and check line take the rows of prompt and check line alone. */
  lemma PlainSelectIff(c: Course, question: Text, options: seq<Choice>, start: nat, color: bool, line: Line, p: nat,
                       k: nat)
    requires c.booked == c.truth && Printable(question) && AllOk(options) && line.Ok(options)
    requires line.chosen.Some? && p == |ChoicePrompt(start)| && k == 4 + |options[line.chosen.value].title|
    ensures EventsOk(PlainPrompt(question, options, start, color, line))
    ensures var d, w := ReplayAll(c, PlainPrompt(question, options, start, color, line)), c.screen.width;
            && d.onFreshLine
            && (d.booked == d.truth <==> ShownRows(w, p, |line.typed|, line.entered, k) == LineRows(p + k, w))
            && (line.entered && p + |line.typed| <= w && p + k <= w ==> d.truth.rows == d.booked.rows + 1)
  {
    var ls := ListLines(question, options, start, color);
    ListIsLines(question, options, start, color);
    LinesOk(ls);
    LinesStayEven(c, ls);
    ReplyCounts(ReplayAll(c, PrintLines(ls)), options, start, color, line, p, k);
    ReplayConcat(c, PrintLines(ls), Reply(options, start, color, line));
  }

  /** The list in letters, for the numbers of one digit: the question, and then every option with its number
      from 1 on, the star in front of the default only. */
  lemma ListReads(question: Text, options: seq<Choice>, start: nat, color: bool, i: nat)
    requires i < |options| && i < 9
    ensures var ls, o := ListLines(question, options, start, color), options[i];
            var star := if i == start then [0x2A] else [0x20];
            && ls[0] == QuestionText(question)
            && Plain(ls[1 + i])
               == Runes(([[0x20], [0x20], star, [0x20], [Ascii(i + 1)], [0x29], [0x20]] + o.title)
                        + if o.hint == [] then [] else Spaces(2) + o.hint)
    ensures 0x31 <= Ascii(i + 1) <= 0x39 && Ascii(i + 1) == 0x31 + i
  {
    var o := options[i];
    var x := NumberedTitle(o, i, i == start);
    assert Numeral(i + 1) == [[Ascii(i + 1)]];
    var star := if i == start then [0x2A] else [0x20];
    assert x == [[0x20], [0x20], star, [0x20], [Ascii(i + 1)], [0x29], [0x20]] + o.title;
    PlainOfRunes(x);
    if o.hint == [] {
      assert x + [] == x && Runes(x) + [] == Runes(x);
    } else {
      PlainOfRunes(Spaces(2));
      PlainOfStyled(color, DIM, o.hint);
      PlainJoin(Runes(Spaces(2)), Spaces(2), Styled(color, DIM, o.hint), o.hint);
      PlainJoin(Runes(x), x, Runes(Spaces(2)) + Styled(color, DIM, o.hint), Spaces(2) + o.hint);
    }
  }

  /** The check line: a check mark behind two blanks, and the option chosen. */
  lemma CheckReads(title: Text, color: bool)
    ensures Plain(CheckLine(title, color)) == Runes([[0x20], [0x20], [0xE2, 0x9C, 0x93], [0x20]] + title)
  {
    var rest := Spaces(1) + title;
    PlainOfRunes(Spaces(2));
    PlainOfRunes(rest);
    PlainOfStyled(color, GREEN, CHECK);
    PlainJoin(Styled(color, GREEN, CHECK), CHECK, Runes(rest), rest);
    PlainJoin(Runes(Spaces(2)), Spaces(2), Styled(color, GREEN, CHECK) + Runes(rest), CHECK + rest);
    CheckLetters(title);
  }

  lemma CheckLetters(title: Text)
    ensures Spaces(2) + (CHECK + (Spaces(1) + title)) == [[0x20], [0x20], [0xE2, 0x9C, 0x93], [0x20]] + title
  {
  }

  /** "  choice [1]: " where the first option is the default. */
  lemma PromptReads(start: nat)
    requires start < 9
    ensures ChoicePrompt(start)
         == [[0x20], [0x20], [0x63], [0x68], [0x6F], [0x69], [0x63], [0x65], [0x20], [0x5B]]
            + [[Ascii(start + 1)]] + [[0x5D], [0x3A], [0x20]]
  {
    assert Numeral(start + 1) == [[Ascii(start + 1)]];
  }
}
