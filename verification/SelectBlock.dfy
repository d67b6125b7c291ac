/**
 The arrow-key select widget: what its option block prints, how many rows it takes, and why
 reprinting it in place leaves the screen exactly as a first printing would.
 */
module SelectBlock {
  import opened Utf8
  import opened Terminal
  import opened RowCount
  import Decimal

  /** A text of printable one-cell runes. */
  type Text = seq<Glyph>

  predicate Printable(x: Text) {
    forall i | 0 <= i < |x| :: Complete(Rune(x[i]))
  }

  function Runes(x: Text): (ts: seq<Token>)
    ensures |ts| == |x|
    ensures forall i | 0 <= i < |x| :: ts[i] == Rune(x[i])
  {
    seq(|x|, i requires 0 <= i < |x| => Rune(x[i]))
  }

  const RESET: Token := Csi([0x30], SGR)
  const GREEN: Token := Csi([0x33, 0x32], SGR)
  const DIM: Token := Csi([0x32], SGR)

  /** A styled span: a complete escape pair around the text, or the bare text without colour. */
  function Styled(color: bool, style: Token, x: Text): (ts: seq<Token>) {
    if color then [style] + Runes(x) + [RESET] else Runes(x)
  }

  function Spaces(n: nat): (x: Text)
    ensures |x| == n && Printable(x)
  {
    seq(n, i => BLANK)
  }

  const MARK: Text := [[0x3E], BLANK]

  datatype Choice = Choice(title: Text, hint: Text) {
    predicate Ok() {
      Printable(title) && Printable(hint)
    }
  }

  function Marker(current: bool, color: bool): (ts: seq<Token>) {
    if current then Styled(color, GREEN, MARK) else Runes(Spaces(2))
  }

  function HintPart(o: Choice, color: bool): (ts: seq<Token>) {
    if o.hint == [] then [] else Runes(Spaces(3)) + Styled(color, DIM, o.hint)
  }

  /** Indent, marker, title and hint of one option. */
  function OptionText(o: Choice, current: bool, color: bool): (ts: seq<Token>) {
    Runes(Spaces(2)) + (Marker(current, color) + (Runes(o.title) + HintPart(o, color)))
  }

  function QuestionText(question: Text): (ts: seq<Token>) {
    Runes(Spaces(2)) + Runes(question)
  }

  /** The option lines, with option `current` marked. */
  function OptionLines(options: seq<Choice>, current: int, color: bool): (ls: seq<seq<Token>>)
    ensures |ls| == |options|
    ensures forall i | 0 <= i < |options| :: ls[i] == OptionText(options[i], i == current, color)
  {
    seq(|options|, i requires 0 <= i < |options| => OptionText(options[i], i == current, color))
  }

  /** Lines as they are printed: each followed by its newline. */
  function Printed(ls: seq<seq<Token>>): (ts: seq<Token>) {
    if ls == [] then [] else ls[0] + [Newline] + Printed(ls[1..])
  }

  /** The option block. */
  function Block(options: seq<Choice>, current: int, color: bool): (ts: seq<Token>) {
    Printed(OptionLines(options, current, color))
  }

  function QuestionLine(question: Text): (ts: seq<Token>) {
    QuestionText(question) + [Newline]
  }

  // ---------------------------------------------------------------------------------------
  // Shape: what a stream looks like once styling is dropped
  // ---------------------------------------------------------------------------------------

  function Plain(ts: seq<Token>): (us: seq<Token>) {
    if ts == [] then [] else if ts[0].Csi? then Plain(ts[1..]) else [ts[0]] + Plain(ts[1..])
  }

  lemma {:induction false} PlainConcat(ts: seq<Token>, us: seq<Token>)
    ensures Plain(ts + us) == Plain(ts) + Plain(us)
  {
    if ts == [] {
      assert ts + us == us;
    } else {
      assert (ts + us)[1..] == ts[1..] + us;
      PlainConcat(ts[1..], us);
    }
  }

  /** A stretch of one line: characters and styling. */
  predicate OneLine(ts: seq<Token>) {
    forall i | 0 <= i < |ts| :: Inky(ts[i]) && !ts[i].Newline?
  }

  lemma {:induction false} PlainOfLine(ts: seq<Token>)
    requires OneLine(ts)
    ensures |Plain(ts)| == Visible(ts)
    ensures forall i | 0 <= i < |Plain(ts)| :: Plain(ts)[i].Rune?
  {
    if ts != [] {
      PlainOfLine(ts[1..]);
    }
  }

  /** A stretch of one line with `k` visible characters, all its tokens complete. */
  predicate Piece(ts: seq<Token>, k: nat) {
    OneLine(ts) && AllComplete(ts) && Visible(ts) == k
  }

  lemma JoinPieces(a: seq<Token>, j: nat, b: seq<Token>, k: nat)
    requires Piece(a, j) && Piece(b, k)
    ensures Piece(a + b, j + k)
  {
    VisibleConcat(a, b);
  }

  lemma {:induction false} VisibleOfRunes(x: Text)
    ensures Visible(Runes(x)) == |x|
  {
    if x != [] {
      VisibleOfRunes(x[1..]);
      assert Runes(x)[1..] == Runes(x[1..]);
    }
  }

  lemma RunesPiece(x: Text)
    requires Printable(x)
    ensures Piece(Runes(x), |x|)
  {
    VisibleOfRunes(x);
  }

  /** Styling adds no width. */
  lemma StyledPiece(color: bool, style: Token, x: Text)
    requires Printable(x) && Complete(style) && style.Csi? && style.final == SGR
    ensures Piece(Styled(color, style, x), |x|)
  {
    RunesPiece(x);
    if color {
      JoinPieces([style], 0, Runes(x), |x|);
      JoinPieces([style] + Runes(x), |x|, [RESET], 0);
    }
  }

  lemma MarkerPiece(current: bool, color: bool)
    ensures Piece(Marker(current, color), 2)
  {
    StyledPiece(color, GREEN, MARK);
    RunesPiece(Spaces(2));
  }

  lemma HintPiece(o: Choice, color: bool)
    requires o.Ok()
    ensures Piece(HintPart(o, color), if o.hint == [] then 0 else 3 + |o.hint|)
  {
    RunesPiece(Spaces(3));
    StyledPiece(color, DIM, o.hint);
    JoinPieces(Runes(Spaces(3)), 3, Styled(color, DIM, o.hint), |o.hint|);
  }

  /** Visible characters of an option's line. */
  function OptionWidth(o: Choice): (k: nat) {
    4 + |o.title| + (if o.hint == [] then 0 else 3 + |o.hint|)
  }

  lemma JoinFour(a: seq<Token>, i: nat, b: seq<Token>, j: nat, c: seq<Token>, k: nat, d: seq<Token>, l: nat)
    requires Piece(a, i) && Piece(b, j) && Piece(c, k) && Piece(d, l)
    ensures Piece(a + (b + (c + d)), i + j + k + l)
  {
    JoinPieces(c, k, d, l);
    JoinPieces(b, j, c + d, k + l);
    JoinPieces(a, i, b + (c + d), j + k + l);
  }

  /** An option's line is as wide whether or not it is current, coloured or plain. */
  lemma OptionPiece(o: Choice, current: bool, color: bool)
    requires o.Ok()
    ensures Piece(OptionText(o, current, color), OptionWidth(o))
  {
    MarkerPiece(current, color);
    RunesPiece(Spaces(2));
    RunesPiece(o.title);
    HintPiece(o, color);
    JoinFour(Runes(Spaces(2)), 2, Marker(current, color), 2, Runes(o.title), |o.title|,
             HintPart(o, color), if o.hint == [] then 0 else 3 + |o.hint|);
  }

  /** Styling moves nothing and writes nothing. */
  lemma {:induction false} PlainSameInk(width: nat, c: Cursor, ts: seq<Token>)
    ensures Travel(width, c, Plain(ts)) == Travel(width, c, ts)
    ensures Ink(width, c, Plain(ts)) == Ink(width, c, ts)
    decreases |ts|
  {
    if ts != [] {
      var c1 := Glide(width, c, ts[0]);
      PlainSameInk(width, c1, ts[1..]);
      if !ts[0].Csi? {
        assert Plain(ts)[1..] == Plain(ts[1..]);
      }
    }
  }

  /** Same line breaks and same character counts: only the characters may differ. */
  predicate SameShape(ts: seq<Token>, us: seq<Token>) {
    && |ts| == |us|
    && forall i | 0 <= i < |ts| :: (ts[i].Newline? && us[i].Newline?) || (ts[i].Rune? && us[i].Rune?)
  }

  lemma {:induction false} ShapeDecidesCells(width: nat, c: Cursor, ts: seq<Token>, us: seq<Token>)
    requires SameShape(ts, us)
    ensures Travel(width, c, ts) == Travel(width, c, us)
    ensures Ink(width, c, ts).Keys == Ink(width, c, us).Keys
    decreases |ts|
  {
    if ts != [] {
      ShapeDecidesCells(width, Glide(width, c, ts[0]), ts[1..], us[1..]);
    }
  }

  // ---------------------------------------------------------------------------------------
  // Reprinting in place
  // ---------------------------------------------------------------------------------------

  function DigitBytes(ds: seq<Decimal.digit>): (ps: seq<byte>) {
    if ds == [] then [] else [(ds[0] as int) + 0x30] + DigitBytes(ds[1..])
  }

  /** The decimal parameter of a control sequence. */
  function Param(n: nat): (ps: seq<byte>) {
    DigitBytes(Decimal.Digits(n))
  }

  function Up(n: nat): (t: Token) {
    Csi(Param(n), CUU)
  }

  function Down(n: nat): (t: Token) {
    Csi(Param(n), CUD)
  }

  lemma {:induction false} ParamDigitsOf(ds: seq<Decimal.digit>)
    ensures ParamDigits(DigitBytes(ds)) == ds
    ensures forall i | 0 <= i < |DigitBytes(ds)| :: 0x30 <= DigitBytes(ds)[i] <= 0x39
  {
    if ds != [] {
      ParamDigitsOf(ds[1..]);
      assert DigitBytes(ds)[1..] == DigitBytes(ds[1..]);
    }
  }

  /** The terminal reads back the count that `%d` printed. */
  lemma MoveCountOfParam(n: nat)
    requires n >= 1
    ensures MoveCount(Param(n)) == n
    ensures Complete(Up(n)) && Complete(Down(n))
  {
    ParamDigitsOf(Decimal.Digits(n));
    Decimal.ValueOfDigits(n);
  }

  /** Printing `us` over an equally shaped `ts`, after climbing back over the rows `ts` took,
      leaves the very screen that printing `us` alone would: same cells, cursor and viewport. */
  lemma ReprintInPlace(s: Screen, ts: seq<Token>, us: seq<Token>, rows: nat)
    requires s.Valid() && s.AtMargin()
    requires AllInky(ts) && AllInky(us) && SameShape(Plain(ts), Plain(us))
    requires Travel(s.width, s.cur, ts) == Cursor(s.cur.row + rows, 0, false)
    requires 1 <= rows < s.height
    ensures Feed(s, ts + [Up(rows)] + us) == Feed(s, us)
  {
    var c := s.cur;
    FeedInk(s, ts);
    FeedInk(s, us);
    PlainSameInk(s.width, c, ts);
    PlainSameInk(s.width, c, us);
    ShapeDecidesCells(s.width, c, Plain(ts), Plain(us));
    var s1 := Feed(s, ts);
    MoveCountOfParam(rows);
    var s2 := Step(s1, Up(rows));
    assert s2.cur == c;
    assert s2.Valid();
    FeedInk(s2, us);
    assert s1.cells + Ink(s.width, c, us) == s.cells + Ink(s.width, c, us);
    FeedConcat(s, ts, [Up(rows)]);
    FeedConcat(s, ts + [Up(rows)], us);
    assert Feed(s1, [Up(rows)]) == s2;
  }

  // ---------------------------------------------------------------------------------------
  // Geometry of printed lines
  // ---------------------------------------------------------------------------------------

  /** `ls` are lines of the given visible widths. */
  predicate Widths(ls: seq<seq<Token>>, ks: seq<nat>) {
    |ls| == |ks| && forall i | 0 <= i < |ls| :: Piece(ls[i], ks[i])
  }

  function RowsOf(width: int, ks: seq<nat>): (r: nat)
    ensures r >= |ks|
  {
    if ks == [] then 0 else
      assert LineRows(ks[0], width) >= 1;
      LineRows(ks[0], width) + RowsOf(width, ks[1..])
  }

  lemma {:induction false} PrintedInky(ls: seq<seq<Token>>, ks: seq<nat>)
    requires Widths(ls, ks)
    ensures AllInky(Printed(ls)) && AllComplete(Printed(ls))
  {
    if ls != [] {
      assert Piece(ls[0], ks[0]);
      PrintedInky(ls[1..], ks[1..]);
    }
  }

  lemma PlainOfPrintedLine(l: seq<Token>, k: nat)
    requires Piece(l, k)
    ensures var us := Plain(l + [Newline]);
            |us| == k + 1 && us[k] == Newline && forall i | 0 <= i < k :: us[i].Rune?
  {
    PlainOfLine(l);
    PlainConcat(l, [Newline]);
    assert Plain([Newline]) == [Newline];
  }

  lemma JoinShapes(a: seq<Token>, b: seq<Token>, c: seq<Token>, d: seq<Token>)
    requires SameShape(a, b) && SameShape(c, d)
    ensures SameShape(a + c, b + d)
  {
  }

  /** Lines of the same widths have the same shape. */
  lemma {:induction false} PrintedShape(ls: seq<seq<Token>>, ms: seq<seq<Token>>, ks: seq<nat>)
    requires Widths(ls, ks) && Widths(ms, ks)
    ensures SameShape(Plain(Printed(ls)), Plain(Printed(ms)))
  {
    if ls != [] {
      PrintedShape(ls[1..], ms[1..], ks[1..]);
      PlainOfPrintedLine(ls[0], ks[0]);
      PlainOfPrintedLine(ms[0], ks[0]);
      PlainConcat(ls[0] + [Newline], Printed(ls[1..]));
      PlainConcat(ms[0] + [Newline], Printed(ms[1..]));
      JoinShapes(Plain(ls[0] + [Newline]), Plain(ms[0] + [Newline]), Plain(Printed(ls[1..])), Plain(Printed(ms[1..])));
    }
  }

  /** The measured rows of printed lines are the sum of their wrapped lines, and measuring ends
      at the margin. */
  lemma {:induction false} PrintedRows(width: int, ls: seq<seq<Token>>, ks: seq<nat>)
    requires Widths(ls, ks)
    ensures Account(width, Tally(0, 0, false), Printed(ls)) == Tally(0, RowsOf(width, ks), false)
  {
    if ls != [] {
      assert Piece(ls[0], ks[0]);
      LineTakesItsRows(width, ls[0]);
      PrintedRows(width, ls[1..], ks[1..]);
      AccountConcat(width, Tally(0, 0, false), ls[0] + [Newline], Printed(ls[1..]));
      AccountFromZero(width, Account(width, Tally(0, 0, false), ls[0] + [Newline]), Printed(ls[1..]));
    }
  }

  // ---------------------------------------------------------------------------------------
  // The widget's block
  // ---------------------------------------------------------------------------------------

  predicate AllOk(options: seq<Choice>) {
    forall i | 0 <= i < |options| :: options[i].Ok()
  }

  function OptionWidths(options: seq<Choice>): (ks: seq<nat>)
    ensures |ks| == |options|
    ensures forall i | 0 <= i < |options| :: ks[i] == OptionWidth(options[i])
  {
    seq(|options|, i requires 0 <= i < |options| => OptionWidth(options[i]))
  }

  /** Rows the option block takes. */
  function OptionRows(width: int, options: seq<Choice>): (r: nat)
    ensures r >= |options|
  {
    RowsOf(width, OptionWidths(options))
  }

  function QuestionRows(width: int, question: Text): (r: nat)
  {
    LineRows(2 + |question|, width)
  }

  lemma OptionLinesWidths(options: seq<Choice>, current: int, color: bool)
    requires AllOk(options)
    ensures Widths(OptionLines(options, current, color), OptionWidths(options))
  {
    forall i | 0 <= i < |options|
      ensures Piece(OptionLines(options, current, color)[i], OptionWidths(options)[i])
    {
      OptionPiece(options[i], i == current, color);
    }
  }

  lemma QuestionPiece(question: Text)
    requires Printable(question)
    ensures Piece(QuestionText(question), 2 + |question|)
  {
    RunesPiece(Spaces(2));
    RunesPiece(question);
    JoinPieces(Runes(Spaces(2)), 2, Runes(question), |question|);
  }

  lemma BlockInky(options: seq<Choice>, current: int, color: bool)
    requires AllOk(options)
    ensures AllInky(Block(options, current, color)) && AllComplete(Block(options, current, color))
  {
    OptionLinesWidths(options, current, color);
    PrintedInky(OptionLines(options, current, color), OptionWidths(options));
  }

  /** The measured row count of the block depends neither on the current index nor on colour. */
  lemma BlockRows(width: int, options: seq<Choice>, current: int, color: bool)
    requires AllOk(options)
    ensures Account(width, Tally(0, 0, false), Block(options, current, color))
         == Tally(0, OptionRows(width, options), false)
  {
    OptionLinesWidths(options, current, color);
    PrintedRows(width, OptionLines(options, current, color), OptionWidths(options));
  }

  lemma QuestionTakesItsRows(width: int, question: Text)
    requires Printable(question)
    ensures Account(width, Tally(0, 0, false), QuestionLine(question))
         == Tally(0, QuestionRows(width, question), false)
  {
    QuestionPiece(question);
    LineTakesItsRows(width, QuestionText(question));
  }

  /** Measuring question and options apart gives the rows of one pass over both. */
  lemma BlockRowsInOnePass(width: int, question: Text, options: seq<Choice>, current: int, color: bool)
    requires Printable(question) && AllOk(options)
    ensures Account(width, Tally(0, 0, false), QuestionLine(question) + Block(options, current, color))
         == Tally(0, QuestionRows(width, question) + OptionRows(width, options), false)
  {
    QuestionTakesItsRows(width, question);
    BlockRows(width, options, current, color);
    var q, b := QuestionLine(question), Block(options, current, color);
    AccountConcat(width, Tally(0, 0, false), q, b);
    AccountFromZero(width, Account(width, Tally(0, 0, false), q), b);
  }

  /** The measured rows are the rows the block really takes on the screen. */
  lemma BlockTravels(s: Screen, options: seq<Choice>, current: int, color: bool)
    requires s.Valid() && s.AtMargin() && AllOk(options)
    ensures Travel(s.width, s.cur, Block(options, current, color))
         == Cursor(s.cur.row + OptionRows(s.width, options), 0, false)
  {
    var b := Block(options, current, color);
    BlockInky(options, current, color);
    FeedInk(s, b);
    BlockRows(s.width, options, current, color);
    CountRefinesTerminal(s, Tally(0, 0, false), b);
    FeedValid(s, b);
  }

  /** Every redraw of the widget, from whichever option to whichever, ends in the screen a fresh
      printing of the new block would give. */
  lemma RedrawIsFreshPaint(s: Screen, options: seq<Choice>, from: int, to: int, color: bool)
    requires s.Valid() && s.AtMargin() && options != [] && AllOk(options)
    requires OptionRows(s.width, options) < s.height
    ensures Feed(Feed(s, Block(options, from, color)), [Up(OptionRows(s.width, options))] + Block(options, to, color))
         == Feed(s, Block(options, to, color))
  {
    var ts, us := Block(options, from, color), Block(options, to, color);
    var rows := OptionRows(s.width, options);
    BlockInky(options, from, color);
    BlockInky(options, to, color);
    BlocksAlike(options, from, to, color);
    BlockTravels(s, options, from, color);
    ReprintInPlace(s, ts, us, rows);
    FeedConcat(s, ts, [Up(rows)] + us);
    assert ts + [Up(rows)] + us == ts + ([Up(rows)] + us);
  }

  lemma BlocksAlike(options: seq<Choice>, from: int, to: int, color: bool)
    requires AllOk(options)
    ensures SameShape(Plain(Block(options, from, color)), Plain(Block(options, to, color)))
  {
    OptionLinesWidths(options, from, color);
    OptionLinesWidths(options, to, color);
    PrintedShape(OptionLines(options, from, color), OptionLines(options, to, color), OptionWidths(options));
  }
}
