/**
 Typed characters the header never books: a typed question ended by end of input, after which the
 wizard goes on; the y/N confirmation, which reads past the header; and typing ahead. Each is shown
 to miscount, with the exact condition under which the next completed line sets the count right.
 */
module UnbookedEcho {
  import opened Arithmetic
  import opened Utf8
  import opened Terminal
  import opened RowCount
  import opened SelectBlock
  import opened SelectSession
  import opened HeaderPaint
  import opened Accounting
  import opened HeaderEvents
  import opened HeaderRun

  // ---------------------------------------------------------------------------------------
  // Prompts as events
  // ---------------------------------------------------------------------------------------

  /** One write that the file accepts whole. */
  function PrintAll(ts: seq<Token>): (e: Event) {
    Print(Encode(ts), |Encode(ts)|)
  }

  lemma PrintAllOk(ts: seq<Token>)
    requires AllComplete(ts) && AllInky(ts)
    ensures PrintAll(ts).Ok() && Tokens(Encode(ts)[..|Encode(ts)|]) == ts
  {
    TokensOfEncode(ts);
    assert Encode(ts)[..|Encode(ts)|] == Encode(ts);
  }

  /** Reading a typed line: the answer, which is what was typed without the blanks around it, is booked if
      and only if Enter ended it. End of input and a cancelled read book nothing. */
  function ReadLine(question: Text, typed: Text, answer: Text, entered: bool): (es: seq<Event>) {
    [PrintAll(Runes(question)), Echo(typed, entered)] + if entered then [Book(answer)] else []
  }

  /** The ticker again, unless the header has degraded. */
  function Resumption(animating: bool): (es: seq<Event>) {
    if animating then [Start] else []
  }

  /** A typed question, during which the ticker rests. */
  function AskLine(question: Text, typed: Text, answer: Text, entered: bool, animating: bool): (es: seq<Event>) {
    [Suspend] + (ReadLine(question, typed, answer, entered) + Resumption(animating))
  }

  /** A select question, during which it rests too. */
  function AskSelect(e: Session, animating: bool): (es: seq<Event>) {
    [Suspend] + ([Select(e)] + Resumption(animating))
  }

  /** One call of the resize handler. */
  function ResizeHandling(animating: bool, eligible: bool): (es: seq<Event>) {
    if !animating then [] else if eligible then [Latch] else [Suspend] + [Degrade]
  }

  /** A y/N confirmation: no suspension, and nothing booked but the question. */
  function AskYesNo(question: seq<byte>, typed: Text, entered: bool): (es: seq<Event>) {
    [Print(question, |question|), Echo(typed, entered)]
  }

  lemma ReadLineOk(question: Text, typed: Text, answer: Text, entered: bool)
    requires Printable(question) && Printable(typed) && Printable(answer)
    ensures EventsOk(ReadLine(question, typed, answer, entered))
  {
    PrintAllOk(Runes(question));
  }

  /** The view after a typed line was read. */
  function Told(v: View, question: Text, typed: Text, answer: Text, entered: bool): (r: View) {
    var bytes := Encode(Runes(question));
    var asked := Fed(Wrote(v, bytes[..|bytes|]), Typed(typed, entered));
    if entered then asked.(l := BookedTokens(asked.s.width, asked.l, Typed(answer, true))) else asked
  }

  lemma ReadLineHappens(v: View, question: Text, typed: Text, answer: Text, entered: bool)
    requires Formed(v) && Printable(question) && Printable(typed) && Printable(answer)
    ensures Leads(v, ReadLine(question, typed, answer, entered), Told(v, question, typed, answer, entered))
  {
    var bytes := Encode(Runes(question));
    var ask, echo := PrintAll(Runes(question)), Echo(typed, entered);
    var v1 := Wrote(v, bytes[..|bytes|]);
    var v2 := Fed(v1, Typed(typed, entered));
    PrintAllOk(Runes(question));
    FormedKept(v, ask);
    FormedKept(v1, echo);
    LeadsOne(v, ask, v1);
    LeadsOne(v1, echo, v2);
    LeadsThen(v, [ask], v1, [echo], v2);
    if entered {
      LeadsOne(v2, Book(answer), Told(v, question, typed, answer, entered));
      LeadsThen(v, [ask] + [echo], v2, [Book(answer)], Told(v, question, typed, answer, entered));
    }
    InARow(ask, echo, if entered then [Book(answer)] else []);
  }

  lemma AskYesNoHappens(v: View, question: seq<byte>, typed: Text, entered: bool)
    requires Formed(v) && Transcript(question) && Printable(typed)
    ensures EventsOk(AskYesNo(question, typed, entered))
    ensures Leads(v, AskYesNo(question, typed, entered), Fed(Wrote(v, question[..|question|]), Typed(typed, entered)))
  {
    assert question[..|question|] == question;
    var v1 := Wrote(v, question[..|question|]);
    FormedKept(v, Print(question, |question|));
    LeadsOne(v, Print(question, |question|), v1);
    LeadsOne(v1, Echo(typed, entered), Fed(v1, Typed(typed, entered)));
    LeadsThen(v, [Print(question, |question|)], v1, [Echo(typed, entered)], Fed(v1, Typed(typed, entered)));
    InARow(Print(question, |question|), Echo(typed, entered), []);
    assert AskYesNo(question, typed, entered) == [Print(question, |question|)] + [Echo(typed, entered)];
  }

  lemma InARow<T>(a: T, b: T, rest: seq<T>)
    ensures [a] + [b] + rest == [a, b] + rest && [a] + [b] + [] == [a] + [b]
  {
  }

  // ---------------------------------------------------------------------------------------
  // The line that follows
  // ---------------------------------------------------------------------------------------

  /** A line of text and its end. */
  predicate TextLine(line: seq<Token>) {
    AllComplete(line) && AllInky(line) && Unbroken(line)
  }

  lemma LineReplays(c: Course, line: seq<Token>)
    requires TextLine(line)
    ensures PrintAll(line + [Newline]).Ok()
    ensures var d := Replay(c, PrintAll(line + [Newline]));
            && d.booked == Account(c.screen.width, c.booked, line + [Newline])
            && d.truth == Account(c.screen.width, c.truth, line + [Newline])
            && d.onFreshLine
  {
    var ts := line + [Newline];
    PrintAllOk(ts);
    EncodedLast(ts);
    LastByteOfToken(Newline);
  }

  /** The course after an echo nobody books, and then a line printed through the header: the header
      counts the line alone, the screen shows both. */
  function EchoThenLine(c: Course, typed: Text, entered: bool, line: seq<Token>): (d: Course)
    requires Printable(typed) && TextLine(line)
    ensures d.booked == Account(c.screen.width, c.booked, line + [Newline])
    ensures d.truth == Account(c.screen.width, Account(c.screen.width, c.truth, Typed(typed, entered)),
                               line + [Newline])
    ensures d.onFreshLine
  {
    FeedKeepsSize(c.screen, Typed(typed, entered));
    LineReplays(Replay(c, Echo(typed, entered)), line);
    Replay(Replay(c, Echo(typed, entered)), PrintAll(line + [Newline]))
  }

  lemma OpenLineCounts(w: int, b: Tally, typed: Text, line: seq<Token>)
    requires Sane(w, b) && Unbroken(line)
    ensures Account(w, Account(w, b, Typed(typed, false)), line + [Newline])
         == Tally(0, b.rows + LineRows(b.col + |typed| + Visible(line), w), false)
  {
    VisibleOfRunes(typed);
    assert Typed(typed, false) == Runes(typed);
    LineInTwo(w, b, Runes(typed), line, b.col + |typed| + Visible(line));
  }

  lemma EndedLineCounts(w: int, b: Tally, typed: Text)
    requires Sane(w, b)
    ensures Account(w, b, Typed(typed, true)) == Tally(0, b.rows + LineRows(b.col + |typed|, w), false)
  {
    VisibleOfRunes(typed);
    LineFrom(w, b, Runes(typed));
  }

  /** Two counts that both ended a line differ by their rows. */
  lemma Compare(x: Tally, y: Tally, rows: int, booked: int, truth: int)
    requires x == Tally(0, rows + booked, false) && y == Tally(0, rows + truth, false)
    ensures x == y <==> truth == booked
    ensures y == x.(rows := x.rows + truth - booked)
  {
  }

  lemma EndOfInputTallies(w: int, b: Tally, typed: Text, line: seq<Token>, booked: int, truth: int)
    requires Sane(w, b) && Unbroken(line)
    requires booked == LineRows(b.col + Visible(line), w) && truth == LineRows(b.col + |typed| + Visible(line), w)
    ensures var x := Account(w, b, line + [Newline]);
            var y := Account(w, Account(w, b, Typed(typed, false)), line + [Newline]);
            (x == y <==> truth == booked) && y == x.(rows := x.rows + truth - booked)
  {
    OpenLineCounts(w, b, typed, line);
    WholeLine(w, b, line, b.col + Visible(line));
    Compare(Account(w, b, line + [Newline]), Account(w, Account(w, b, Typed(typed, false)), line + [Newline]),
            b.rows, booked, truth);
  }

  /** End of input after `typed`: the next line sets the count right if and only if it takes as many
      rows behind the typed characters as without them. */
  lemma EndOfInputIff(c: Course, typed: Text, line: seq<Token>, booked: int, truth: int)
    requires c.booked == c.truth && Sane(c.screen.width, c.truth) && Printable(typed) && TextLine(line)
    requires booked == LineRows(c.truth.col + Visible(line), c.screen.width)
    requires truth == LineRows(c.truth.col + |typed| + Visible(line), c.screen.width)
    ensures var d := EchoThenLine(c, typed, false, line);
            && d.onFreshLine
            && (d.booked == d.truth <==> truth == booked)
            && d.truth == d.booked.(rows := d.booked.rows + truth - booked)
  {
    EndOfInputTallies(c.screen.width, c.truth, typed, line, booked, truth);
  }

  /** With nothing typed, end of input changes nothing at all. */
  lemma EndOfInputIsBenign(c: Course)
    ensures Echo([], false).Ok() && Replay(c, Echo([], false)) == c
  {
    assert Typed([], false) == [];
  }

  lemma YesNoTallies(w: int, b: Tally, typed: Text, line: seq<Token>, booked: int, truth: int)
    requires Sane(w, b) && Unbroken(line)
    requires booked == LineRows(b.col + Visible(line), w)
    requires truth == LineRows(b.col + |typed|, w) + LineRows(Visible(line), w)
    ensures var x := Account(w, b, line + [Newline]);
            var y := Account(w, Account(w, b, Typed(typed, true)), line + [Newline]);
            (x == y <==> truth == booked) && y == x.(rows := x.rows + truth - booked)
  {
    EndedLineCounts(w, b, typed);
    var b1 := Account(w, b, Typed(typed, true));
    WholeLine(w, b1, line, Visible(line));
    WholeLine(w, b, line, b.col + Visible(line));
    Compare(Account(w, b, line + [Newline]), Account(w, b1, line + [Newline]), b.rows, booked, truth);
  }

  /** A y/N answer and its Enter: the next line sets the count right if and only if, printed right
      behind the question, it would take the rows of both lines. */
  lemma YesNoIff(c: Course, typed: Text, line: seq<Token>, booked: int, truth: int)
    requires c.booked == c.truth && Sane(c.screen.width, c.truth) && Printable(typed) && TextLine(line)
    requires booked == LineRows(c.truth.col + Visible(line), c.screen.width)
    requires truth == LineRows(c.truth.col + |typed|, c.screen.width) + LineRows(Visible(line), c.screen.width)
    ensures var d := EchoThenLine(c, typed, true, line);
            && d.onFreshLine
            && (d.booked == d.truth <==> truth == booked)
            && d.truth == d.booked.(rows := d.booked.rows + truth - booked)
  {
    YesNoTallies(c.screen.width, c.truth, typed, line, booked, truth);
  }

  /** The course after a y/N answer that led on to a typed question: the question printed, the answer typed
      and booked. */
  function EchoThenAnswer(c: Course, typed: Text, question: Text, second: Text, answer: Text): (d: Course)
    requires Printable(typed) && Printable(question) && Printable(second) && Printable(answer)
    ensures var w := c.screen.width;
            && d.booked == Account(w, Account(w, c.booked, Runes(question)), Typed(answer, true))
            && d.truth == Account(w, Account(w, Account(w, c.truth, Typed(typed, true)), Runes(question)),
                                  Typed(second, true))
            && d.onFreshLine
  {
    PrintAllOk(Runes(question));
    FeedKeepsSize(c.screen, Typed(typed, true));
    var c1 := Replay(c, Echo(typed, true));
    FeedKeepsSize(c1.screen, Runes(question));
    var c2 := Replay(c1, PrintAll(Runes(question)));
    FeedKeepsSize(c2.screen, Typed(second, true));
    Replay(Replay(c2, Echo(second, true)), Book(answer))
  }

  lemma AnswerBehindQuestion(w: int, b: Tally, question: Text, answer: Text, rows: int)
    requires Sane(w, b) && rows == LineRows(b.col + |question| + |answer|, w)
    ensures Account(w, Account(w, b, Runes(question)), Typed(answer, true)) == Tally(0, b.rows + rows, false)
  {
    VisibleOfRunes(question);
    VisibleOfRunes(answer);
    LineInTwo(w, b, Runes(question), Runes(answer), b.col + |question| + |answer|);
  }

  /** A y/N answer and its Enter, and then a typed question: its answer sets the count right if and only
      if, asked right behind the y/N question, it would take the rows of both lines. */
  lemma DeclinedIff(c: Course, typed: Text, question: Text, second: Text, answer: Text, booked: int, above: int,
                    below: int)
    requires c.booked == c.truth && Sane(c.screen.width, c.truth)
    requires Printable(typed) && Printable(question) && Printable(second) && Printable(answer)
    requires booked == LineRows(c.truth.col + |question| + |answer|, c.screen.width)
    requires above == LineRows(c.truth.col + |typed|, c.screen.width)
    requires below == LineRows(|question| + |second|, c.screen.width)
    ensures var d := EchoThenAnswer(c, typed, question, second, answer);
            && d.onFreshLine
            && (d.booked == d.truth <==> above + below == booked)
            && d.truth == d.booked.(rows := d.booked.rows + (above + below) - booked)
  {
    var w := c.screen.width;
    EndedLineCounts(w, c.truth, typed);
    AnswerBehindQuestion(w, c.truth, question, answer, booked);
    AnswerBehindQuestion(w, Account(w, c.truth, Typed(typed, true)), question, second, below);
  }

  /** A completed line whose answer is booked without the blanks around it: the count stays right if and
      only if the blanks took no row of their own. */
  lemma BookedAnswerIff(c: Course, typed: Text, answer: Text)
    requires c.booked == c.truth && Sane(c.screen.width, c.truth) && Printable(typed) && Printable(answer)
    ensures var d := Replay(Replay(c, Echo(typed, true)), Book(answer));
            && d.onFreshLine
            && (d.booked == d.truth <==>
                LineRows(c.truth.col + |typed|, c.screen.width) == LineRows(c.truth.col + |answer|, c.screen.width))
  {
    FeedKeepsSize(c.screen, Typed(typed, true));
    EndedLineCounts(c.screen.width, c.truth, typed);
    EndedLineCounts(c.screen.width, c.truth, answer);
  }

  /** What a select prompt adds to either count. */
  lemma SelectCounts(c: Course, e: Session, booked: int, truth: int)
    requires Sane(c.screen.width, c.truth) && e.Ok()
    requires booked == LineRows(2 + |e.question|, c.screen.width)
    requires truth == LineRows(c.truth.col + 2 + |e.question|, c.screen.width)
    ensures var d := Replay(c, Select(e));
            && d.booked == Tally(0, d.booked.rows, false) && d.truth == Tally(0, d.truth.rows, false) && d.onFreshLine
            && d.truth.rows - d.booked.rows == c.truth.rows + truth - (c.booked.rows + booked)
  {
    var r := Prompted(c.screen, e);
    SelectTranscriptCounts(c.screen.width, c.truth, e.question, e.options, r.shown, e.color, r.outcome.Confirmed?);
  }

  /** A select question asked behind `col` columns of an open line: the reconciled count is right if and
      only if the question's line takes as many rows from there as from the margin. */
  lemma SelectIff(c: Course, e: Session, booked: int, truth: int)
    requires c.booked == c.truth && Sane(c.screen.width, c.truth) && e.Ok()
    requires booked == LineRows(2 + |e.question|, c.screen.width)
    requires truth == LineRows(c.truth.col + 2 + |e.question|, c.screen.width)
    ensures var d := Replay(c, Select(e)); d.onFreshLine && (d.booked == d.truth <==> truth == booked)
  {
    SelectCounts(c, e, booked, truth);
  }

  // ---------------------------------------------------------------------------------------
  // Failing inputs
  // ---------------------------------------------------------------------------------------

  /** On 80 columns: a 17-column question, 40 characters typed before end of input, and a check line of
      44 columns take two rows; one is booked. */
  lemma EndOfInputMiscounts(c: Course, typed: Text, line: seq<Token>)
    requires c.booked == c.truth && c.screen.width == 80 && c.truth.col == 17 && !c.truth.pending
    requires Printable(typed) && |typed| == 40 && TextLine(line) && Visible(line) == 44
    ensures var d := EchoThenLine(c, typed, false, line); d.truth.rows == d.booked.rows + 1
  {
    EndOfInputIff(c, typed, line, 1, 2);
  }

  /** Whenever question, answer and the next line all fit one row, a y/N confirmation leaves the count
      one row short. */
  lemma YesNoMiscounts(c: Course, typed: Text, line: seq<Token>)
    requires c.booked == c.truth && Sane(c.screen.width, c.truth) && c.screen.width > 0
    requires Printable(typed) && TextLine(line)
    requires c.truth.col + |typed| <= c.screen.width && c.truth.col + Visible(line) <= c.screen.width
    ensures var d := EchoThenLine(c, typed, true, line); d.truth.rows == d.booked.rows + 1
  {
    YesNoIff(c, typed, line, 1, 2);
  }

  /** On 80 columns: 80 characters typed behind 17 columns, of which 10 are left without the blanks around
      them. */
  lemma TrimmedBlanksMiscount(c: Course, typed: Text, answer: Text)
    requires c.booked == c.truth && c.screen.width == 80 && c.truth.col == 17 && !c.truth.pending
    requires Printable(typed) && |typed| == 80 && Printable(answer) && |answer| == 10
    ensures var d := Replay(Replay(c, Echo(typed, true)), Book(answer));
            d.onFreshLine && d.truth.rows == d.booked.rows + 1
  {
    FeedKeepsSize(c.screen, Typed(typed, true));
    EndedLineCounts(c.screen.width, c.truth, typed);
    EndedLineCounts(c.screen.width, c.truth, answer);
  }

  /** On 80 columns: a select question of 20 characters asked behind 70 columns of an open line. */
  lemma OpenLineSelectMiscounts(c: Course, e: Session)
    requires c.booked == c.truth && c.screen.width == 80 && c.truth.col == 70 && !c.truth.pending
    requires e.Ok() && |e.question| == 20
    ensures var d := Replay(c, Select(e)); d.onFreshLine && d.truth.rows == d.booked.rows + 1
  {
    SelectCounts(c, e, 1, 2);
  }

  /** A tick between a reflow that left the cursor one row lower and its handler: it paints one row below
      the header. */
  lemma ReflowedPaintMisses(v: View, s: Screen, readable: bool)
    requires Formed(v) && Good(v) && Paints(v, Tick(readable)) && OnMark(v) && !v.f.afloat
    requires s == v.s.(cur := Cursor(v.s.cur.row + 1, 0, false)) && s.Valid() && v.l.rows + v.l.body < s.height
    ensures var w := Happens(v, Reflow(s));
            && Formed(w) && Paints(w, Tick(readable)) && !OnMark(w)
            && Happens(w, Tick(readable)).s
               == s.(cells := PaintFrame(s.cells, v.l.home + 1, v.art.frames[Painted(v, Tick(readable))]))
  {
    var w := v.(s := s, quiet := s, f := v.f.(afloat := true));
    StillPaints(v, w, readable);
    OneRowLower(v.s, s, v.l.home, v.l.rows, v.l.body);
    PaintIsRedraw(w, Tick(readable));
    LowerRedraw(w, Painted(w, Tick(readable)));
  }

  /** A reflow holds no tick back. */
  lemma StillPaints(v: View, w: View, readable: bool)
    requires Formed(v) && Good(v) && Paints(v, Tick(readable)) && !v.f.afloat && w.s.Valid()
    requires w == v.(s := w.s, quiet := w.s, f := v.f.(afloat := true))
    requires w.s.width == v.s.width && w.s.height == v.s.height
    ensures Formed(w) && Paints(w, Tick(readable)) && Painted(w, Tick(readable)) == Painted(v, Tick(readable))
    ensures AllFit(w.art.frames, w.s.width) && w.l.body >= 1 && v.s.Valid()
  {
    OpenGood(v);
    KinIsFormed(v, w);
  }

  lemma OneRowLower(s: Screen, t: Screen, home: int, rows: nat, body: nat)
    requires s.Valid() && t.Valid() && t == s.(cur := Cursor(s.cur.row + 1, 0, false)) && rows + body < s.height
    requires Target(s, rows, body) == home && Min(s.top + s.height - 1, home + rows + body) == s.cur.row
    ensures Target(t, rows, body) == home + 1 && t.cur.row == home + 1 + rows + body
  {
  }

  lemma LowerRedraw(w: View, i: int)
    requires w.s.Valid() && w.s.AtMargin() && 0 <= i < |w.art.frames| && Fits(w.art.frames[i], w.s.width)
    requires |w.art.frames[i]| == w.l.rows && w.l.rows >= 1 && w.l.body >= 1
    requires Target(w.s, w.l.rows, w.l.body) == w.l.home + 1 && w.s.cur.row == w.l.home + 1 + w.l.rows + w.l.body
    ensures Redrawn(w, i).s == w.s.(cells := PaintFrame(w.s.cells, w.l.home + 1, w.art.frames[i]))
  {
    RedrawGoes(w, i, w.l.home + 1);
  }

  /** And what a paint with a wrong count does: it goes over other rows, as far below the header as rows
      were not booked, or as far above it as too many were, at most to the viewport's first row. */
  lemma MiscountedPaintMisses(v: View, c: Course, e: Event, off: int)
    requires Formed(v) && Good(v) && Follows(v, c) && e.Ok() && Paints(v, e)
    requires v.l.rows + v.l.body < v.s.height && !c.reflowed
    requires c.truth == c.booked.(rows := c.truth.rows) && off == c.truth.rows - c.booked.rows
    ensures var row := if off >= 0 then v.l.home + off else Max(v.s.top, v.l.home + off);
            && Happens(v, e).s.cells == PaintFrame(v.s.cells, row, v.art.frames[Painted(v, e)])
            && (off >= 0 ==>
                  Happens(v, e).s == v.s.(cells := PaintFrame(v.s.cells, row, v.art.frames[Painted(v, e)])))
  {
    AtTrueDepth(v, c, e);
    PaintIsRedraw(v, e);
    RedrawOffMark(v, Painted(v, e), off);
  }

  lemma AtTrueDepth(v: View, c: Course, e: Event)
    requires Formed(v) && Good(v) && Follows(v, c) && e.Ok() && Paints(v, e)
    requires v.l.rows + v.l.body < v.s.height && !c.reflowed && c.truth == c.booked.(rows := c.truth.rows)
    ensures InStep(v) && v.s.AtMargin() && v.l.body == c.booked.rows >= 1
    ensures Depth(v.s, v.l.home, v.l.rows) == c.truth.rows
  {
    QuietHasSameShape(v);
    OpenGood(v);
    DistanceIsBookedIff(v, c);
  }

  lemma PaintIsRedraw(v: View, e: Event)
    requires Formed(v) && e.Ok() && Paints(v, e) && v.l.body >= 1
    ensures Happens(v, e).s == Redrawn(v, Painted(v, e)).s
  {
  }
}
