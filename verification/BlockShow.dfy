/**
 What the select prompt's option block shows, character by character: every title in its place, and
 the mark in front of the current option only. A line that is too long goes on in the next row.
 */
module BlockShow {
  import opened Arithmetic
  import opened Terminal
  import opened RowCount
  import opened SelectBlock
  import opened HeaderPaint

  /** The cell of the `k`th character of a line that begins at the margin of `row`. */
  function Place(width: nat, row: int, k: nat): (p: (int, int))
    requires width > 0
  {
    (row + k / width, k % width)
  }

  /** The cursor behind `k` characters. */
  function Spot(width: nat, row: int, k: nat): (c: Cursor)
    requires width > 0
  {
    if k > 0 && k % width == 0 then Cursor(row + k / width - 1, width - 1, true)
    else Cursor(row + k / width, k % width, false)
  }

  lemma SpotNext(width: nat, row: int, k: nat, g: Glyph)
    requires width > 0
    ensures var u := Unwrapped(Spot(width, row, k)); (u.row, u.col) == Place(width, row, k)
    ensures Glide(width, Spot(width, row, k), Rune(g)) == Spot(width, row, k + 1)
  {
    var q, r := k / width, k % width;
    assert k == q * width + r;
    assert (q + 1) * width == q * width + width;
    if r + 1 == width {
      DivModUnique(k + 1, width, q + 1, 0);
    } else {
      DivModUnique(k + 1, width, q, r + 1);
    }
  }

  /** The number of a cell on a line that begins on `row`. */
  function Index(width: nat, row: int, p: (int, int)): (k: int) {
    (p.0 - row) * width + p.1
  }

  lemma PlaceIndex(width: nat, row: int, k: nat)
    requires width > 0
    ensures Index(width, row, Place(width, row, k)) == k
  {
  }

  /** The characters of `x`, the first of them the `k`th of its line. */
  function LineCells(width: nat, row: int, k: nat, x: Text): (m: Cells)
    requires width > 0
    decreases |x|
  {
    if x == [] then map[] else map[Place(width, row, k) := x[0]] + LineCells(width, row, k + 1, x[1..])
  }

  lemma RunesFirst(x: Text)
    requires x != []
    ensures Runes(x) + [Newline] == [Rune(x[0])] + (Runes(x[1..]) + [Newline])
  {
  }

  lemma {:induction false} LineInk(width: nat, row: int, k: nat, x: Text)
    requires width > 0
    ensures Ink(width, Spot(width, row, k), Runes(x) + [Newline]) == LineCells(width, row, k, x)
    decreases |x|
  {
    if x == [] {
      assert Runes(x) + [Newline] == [Newline];
      InkOfNewline(width, Spot(width, row, k));
    } else {
      var rest := Runes(x[1..]) + [Newline];
      RunesFirst(x);
      SpotNext(width, row, k, x[0]);
      InkOfRune(width, Spot(width, row, k), x[0], rest);
      LineInk(width, row, k + 1, x[1..]);
    }
  }

  lemma InkOfNewline(width: nat, c: Cursor)
    ensures Ink(width, c, [Newline]) == map[] && Travel(width, c, [Newline]) == Cursor(c.row + 1, 0, false)
  {
    assert [Newline][1..] == [];
  }

  lemma InkOfRune(width: nat, c: Cursor, g: Glyph, rest: seq<Token>)
    ensures var u := Unwrapped(c);
            var d := Glide(width, c, Rune(g));
            && Ink(width, c, [Rune(g)] + rest) == map[(u.row, u.col) := g] + Ink(width, d, rest)
            && Travel(width, c, [Rune(g)] + rest) == Travel(width, d, rest)
  {
    assert ([Rune(g)] + rest)[1..] == rest;
  }

  /** Where a line ends. */
  lemma {:induction false} LineTravel(width: nat, row: int, k: nat, x: Text)
    requires width > 0
    ensures Travel(width, Spot(width, row, k), Runes(x) + [Newline])
         == Cursor(row + LineRows(k + |x|, width), 0, false)
    decreases |x|
  {
    if x == [] {
      assert Runes(x) + [Newline] == [Newline];
      InkOfNewline(width, Spot(width, row, k));
      CeilingOfLine(k, width);
    } else {
      RunesFirst(x);
      SpotNext(width, row, k, x[0]);
      InkOfRune(width, Spot(width, row, k), x[0], Runes(x[1..]) + [Newline]);
      LineTravel(width, row, k + 1, x[1..]);
    }
  }

  lemma QuotientBelow(k: nat, b: nat, width: nat)
    requires width > 0 && k < b * width
    ensures k / width < b
  {
    var a := k / width;
    assert k == a * width + k % width;
    if a >= b {
      MulMonotone(b, a, width);
    }
  }

  lemma RowWithin(k: nat, n: nat, width: nat)
    requires k < n && width > 0
    ensures k / width < LineRows(n, width)
  {
    var q, r := n / width, n % width;
    assert n == q * width + r && (q + 1) * width == q * width + width;
    CeilingOfLine(n, width);
    if r == 0 {
      QuotientBelow(k, q, width);
    } else {
      QuotientBelow(k, q + 1, width);
    }
  }

  lemma {:induction false} LineCellsWithin(width: nat, row: int, k: nat, x: Text, p: (int, int))
    requires width > 0 && p in LineCells(width, row, k, x)
    ensures k <= Index(width, row, p) && row <= p.0 < row + LineRows(k + |x|, width)
    decreases |x|
  {
    if p == Place(width, row, k) {
      PlaceIndex(width, row, k);
      RowWithin(k, k + |x|, width);
    } else {
      LineCellsWithin(width, row, k + 1, x[1..], p);
    }
  }

  /** Every character is in its cell. */
  lemma {:induction false} LineCellAt(width: nat, row: int, k: nat, x: Text, j: nat)
    requires width > 0 && j < |x|
    ensures var m := LineCells(width, row, k, x); Place(width, row, k + j) in m && m[Place(width, row, k + j)] == x[j]
    decreases |x|
  {
    var p := Place(width, row, k + j);
    if j > 0 {
      LineCellAt(width, row, k + 1, x[1..], j - 1);
    } else if p in LineCells(width, row, k + 1, x[1..]) {
      LineCellsWithin(width, row, k + 1, x[1..], p);
      PlaceIndex(width, row, k);
    }
  }

  // ---------------------------------------------------------------------------------------
  // Lines below each other
  // ---------------------------------------------------------------------------------------

  /** Each line is one line of text, styled or not, and these are its characters. */
  predicate Lettered(ls: seq<seq<Token>>, xs: seq<Text>) {
    |ls| == |xs| && forall i | 0 <= i < |ls| :: Plain(ls[i] + [Newline]) == Runes(xs[i]) + [Newline]
  }

  /** The row on which the `i`th of the lines begins. */
  function RowOf(width: nat, row: int, xs: seq<Text>, i: nat): (r: int)
    requires i <= |xs|
    decreases i
  {
    if i == 0 then row else RowOf(width, row + LineRows(|xs[0]|, width), xs[1..], i - 1)
  }

  lemma PlainLineInk(width: nat, row: int, line: seq<Token>, x: Text)
    requires width > 0 && Plain(line) == Runes(x) + [Newline]
    ensures Ink(width, Cursor(row, 0, false), line) == LineCells(width, row, 0, x)
    ensures Travel(width, Cursor(row, 0, false), line) == Cursor(row + LineRows(|x|, width), 0, false)
  {
    PlainSameInk(width, Cursor(row, 0, false), line);
    LineInk(width, row, 0, x);
    LineTravel(width, row, 0, x);
  }

  lemma PrintedFirst(width: nat, row: int, ls: seq<seq<Token>>, xs: seq<Text>, next: int)
    requires width > 0 && Lettered(ls, xs) && ls != [] && next == row + LineRows(|xs[0]|, width)
    ensures Ink(width, Cursor(row, 0, false), Printed(ls))
         == LineCells(width, row, 0, xs[0]) + Ink(width, Cursor(next, 0, false), Printed(ls[1..]))
    ensures Lettered(ls[1..], xs[1..])
  {
    var line, rest := ls[0] + [Newline], Printed(ls[1..]);
    PlainLineInk(width, row, line, xs[0]);
    InkTwo(width, Cursor(row, 0, false), line, rest, LineCells(width, row, 0, xs[0]), Cursor(next, 0, false));
  }

  lemma InkTwo(width: nat, c: Cursor, a: seq<Token>, b: seq<Token>, m: Cells, d: Cursor)
    requires Ink(width, c, a) == m && Travel(width, c, a) == d
    ensures Ink(width, c, a + b) == m + Ink(width, d, b)
  {
    InkConcat(width, c, a, b);
  }

  lemma {:induction false} InkBelowRow(width: nat, row: int, ls: seq<seq<Token>>, xs: seq<Text>, p: (int, int))
    requires width > 0 && Lettered(ls, xs) && p in Ink(width, Cursor(row, 0, false), Printed(ls))
    ensures p.0 >= row
    decreases |ls|
  {
    if ls != [] {
      var next := row + LineRows(|xs[0]|, width);
      PrintedFirst(width, row, ls, xs, next);
      if p in Ink(width, Cursor(next, 0, false), Printed(ls[1..])) {
        InkBelowRow(width, next, ls[1..], xs[1..], p);
      } else {
        LineCellsWithin(width, row, 0, xs[0], p);
      }
    }
  }

  lemma FirstLineShows(width: nat, row: int, ls: seq<seq<Token>>, xs: seq<Text>, next: int, j: nat)
    requires width > 0 && Lettered(ls, xs) && ls != [] && next == row + LineRows(|xs[0]|, width) && j < |xs[0]|
    ensures var m := LineCells(width, row, 0, xs[0]) + Ink(width, Cursor(next, 0, false), Printed(ls[1..]));
            Place(width, row, j) in m && m[Place(width, row, j)] == xs[0][j]
  {
    var p := Place(width, row, j);
    LineCellAt(width, row, 0, xs[0], j);
    LineCellsWithin(width, row, 0, xs[0], p);
    if p in Ink(width, Cursor(next, 0, false), Printed(ls[1..])) {
      InkBelowRow(width, next, ls[1..], xs[1..], p);
    }
  }

  /** Character `j` of line `i` is in its cell. */
  lemma {:induction false} PrintedShows(width: nat, row: int, ls: seq<seq<Token>>, xs: seq<Text>, i: nat, j: nat)
    requires width > 0 && Lettered(ls, xs) && i < |xs| && j < |xs[i]|
    ensures var m := Ink(width, Cursor(row, 0, false), Printed(ls));
            var p := Place(width, RowOf(width, row, xs, i), j);
            p in m && m[p] == xs[i][j]
    decreases |ls|
  {
    var next := row + LineRows(|xs[0]|, width);
    PrintedFirst(width, row, ls, xs, next);
    if i == 0 {
      FirstLineShows(width, row, ls, xs, next, j);
    } else {
      PrintedShows(width, next, ls[1..], xs[1..], i - 1, j);
    }
  }

  // ---------------------------------------------------------------------------------------
  // The option block
  // ---------------------------------------------------------------------------------------

  /** The characters of an option's line: indent, mark or blanks, title, and the hint behind three blanks. */
  function Letters(o: Choice, current: bool): (x: Text) {
    Spaces(2) + ((if current then MARK else Spaces(2)) + (o.title + (if o.hint == [] then [] else Spaces(3) + o.hint)))
  }

  function AllLetters(options: seq<Choice>, current: int): (xs: seq<Text>)
    ensures |xs| == |options|
    ensures forall i | 0 <= i < |options| :: xs[i] == Letters(options[i], i == current)
  {
    seq(|options|, i requires 0 <= i < |options| => Letters(options[i], i == current))
  }

  lemma PlainJoin(a: seq<Token>, x: Text, b: seq<Token>, y: Text)
    requires Plain(a) == Runes(x) && Plain(b) == Runes(y)
    ensures Plain(a + b) == Runes(x + y)
  {
    PlainConcat(a, b);
  }

  lemma PlainOfStyled(color: bool, style: Token, x: Text)
    requires style.Csi?
    ensures Plain(Styled(color, style, x)) == Runes(x)
  {
    PlainOfRunes(x);
    if color {
      PlainConcat([style] + Runes(x), [RESET]);
      PlainConcat([style], Runes(x));
      assert Plain([style]) == [] && Plain([RESET]) == [];
    }
  }

  lemma PlainOfMarker(current: bool, color: bool)
    ensures Plain(Marker(current, color)) == Runes(if current then MARK else Spaces(2))
  {
    PlainOfStyled(color, GREEN, MARK);
    PlainOfRunes(Spaces(2));
  }

  lemma PlainOfHint(o: Choice, color: bool)
    ensures Plain(HintPart(o, color)) == Runes(if o.hint == [] then [] else Spaces(3) + o.hint)
  {
    if o.hint != [] {
      PlainOfRunes(Spaces(3));
      PlainOfStyled(color, DIM, o.hint);
      PlainJoin(Runes(Spaces(3)), Spaces(3), Styled(color, DIM, o.hint), o.hint);
    }
  }

  lemma OptionLetters(o: Choice, current: bool, color: bool)
    ensures Plain(OptionText(o, current, color) + [Newline]) == Runes(Letters(o, current)) + [Newline]
  {
    var mark := if current then MARK else Spaces(2);
    var hint := if o.hint == [] then [] else Spaces(3) + o.hint;
    PlainOfRunes(Spaces(2));
    PlainOfMarker(current, color);
    PlainOfRunes(o.title);
    PlainOfHint(o, color);
    PlainJoin(Runes(o.title), o.title, HintPart(o, color), hint);
    PlainJoin(Marker(current, color), mark, Runes(o.title) + HintPart(o, color), o.title + hint);
    PlainJoin(Runes(Spaces(2)), Spaces(2), Marker(current, color) + (Runes(o.title) + HintPart(o, color)),
              mark + (o.title + hint));
    PlainConcat(OptionText(o, current, color), [Newline]);
    assert Plain([Newline]) == [Newline];
  }

  /** The `k`th character of a line that begins at the margin of `row`. */
  function CharAt(s: Screen, row: int, k: nat): (g: Glyph)
    requires s.width > 0
  {
    At(s.cells, row + k / s.width, k % s.width)
  }

  /** The row on which option `i` begins, below a block's first row. */
  function OptionRow(s: Screen, options: seq<Choice>, current: int, i: nat): (r: int)
    requires i <= |options|
  {
    RowOf(s.width, s.cur.row, AllLetters(options, current), i)
  }

  /** An option's line: the mark in front of the current one only, the title behind it, and a hint three
      blanks behind the title. */
  predicate OptionStands(t: Screen, row: int, o: Choice, current: bool)
    requires t.width > 0
  {
    && CharAt(t, row, 2) == (if current then [0x3E] else BLANK)
    && CharAt(t, row, 0) == CharAt(t, row, 1) == CharAt(t, row, 3) == BLANK
    && (forall j | 0 <= j < |o.title| :: CharAt(t, row, 4 + j) == o.title[j])
    && (forall j | 0 <= j < |o.hint| :: CharAt(t, row, 4 + |o.title| + 3 + j) == o.hint[j])
  }

  /** On the terminal, option by option and whatever the width, the block stands as it should. */
  lemma BlockShows(s: Screen, options: seq<Choice>, current: int, color: bool, i: nat)
    requires s.Valid() && s.AtMargin() && AllOk(options) && i < |options|
    ensures var t, row := Feed(s, Block(options, current, color)), OptionRow(s, options, current, i);
            t.width == s.width && OptionStands(t, row, options[i], i == current)
  {
    var t, row := Feed(s, Block(options, current, color)), OptionRow(s, options, current, i);
    BlockLine(s, options, current, color, i, t, row, Letters(options[i], i == current));
    Reading(t, row, options[i], i == current);
  }

  lemma BlockLine(s: Screen, options: seq<Choice>, current: int, color: bool, i: nat, t: Screen, row: int, x: Text)
    requires s.Valid() && s.AtMargin() && AllOk(options) && i < |options|
    requires t == Feed(s, Block(options, current, color)) && row == OptionRow(s, options, current, i)
    requires x == AllLetters(options, current)[i]
    ensures t.width == s.width && forall j | 0 <= j < |x| :: CharAt(t, row, j) == x[j]
  {
    FeedKeepsSize(s, Block(options, current, color));
    forall j: nat | j < |x| ensures CharAt(t, row, j) == x[j] {
      BlockChar(s, options, current, color, i, j);
    }
  }

  lemma Reading(t: Screen, row: int, o: Choice, current: bool)
    requires t.width > 0 && forall j | 0 <= j < |Letters(o, current)| :: CharAt(t, row, j) == Letters(o, current)[j]
    ensures OptionStands(t, row, o, current)
  {
    LettersAre(o, current);
  }

  lemma LettersAre(o: Choice, current: bool)
    ensures var x := Letters(o, current);
            && |x| >= 4 + |o.title| && x[2] == (if current then [0x3E] else BLANK) && x[0] == x[1] == x[3] == BLANK
            && (forall j | 0 <= j < |o.title| :: x[4 + j] == o.title[j])
            && (o.hint != [] ==> |x| == 4 + |o.title| + 3 + |o.hint|)
            && (forall j | 0 <= j < |o.hint| :: x[4 + |o.title| + 3 + j] == o.hint[j])
  {
  }

  lemma BlockLettered(options: seq<Choice>, current: int, color: bool)
    ensures Lettered(OptionLines(options, current, color), AllLetters(options, current))
  {
    var ls, xs := OptionLines(options, current, color), AllLetters(options, current);
    forall k | 0 <= k < |ls| ensures Plain(ls[k] + [Newline]) == Runes(xs[k]) + [Newline] {
      OptionLetters(options[k], k == current, color);
    }
  }

  lemma BlockChar(s: Screen, options: seq<Choice>, current: int, color: bool, i: nat, j: nat)
    requires s.Valid() && s.AtMargin() && AllOk(options) && i < |options|
    requires j < |AllLetters(options, current)[i]|
    ensures var t := Feed(s, Block(options, current, color));
            && t.width == s.width
            && CharAt(t, RowOf(s.width, s.cur.row, AllLetters(options, current), i), j)
               == AllLetters(options, current)[i][j]
  {
    var block, xs := Block(options, current, color), AllLetters(options, current);
    BlockLettered(options, current, color);
    PrintedShows(s.width, s.cur.row, OptionLines(options, current, color), xs, i, j);
    BlockInky(options, current, color);
    CharFrom(s, block, RowOf(s.width, s.cur.row, xs, i), j, xs[i][j]);
  }

  lemma CharFrom(s: Screen, ts: seq<Token>, row: int, j: nat, g: Glyph)
    requires s.Valid() && AllInky(ts) && Place(s.width, row, j) in Ink(s.width, s.cur, ts)
    requires Ink(s.width, s.cur, ts)[Place(s.width, row, j)] == g
    ensures Feed(s, ts).width == s.width && CharAt(Feed(s, ts), row, j) == g
  {
    FeedKeepsSize(s, ts);
    OverlaidAt(s, ts, Place(s.width, row, j));
  }

  lemma OverlaidAt(s: Screen, ts: seq<Token>, p: (int, int))
    requires s.Valid() && AllInky(ts) && p in Ink(s.width, s.cur, ts)
    ensures At(Feed(s, ts).cells, p.0, p.1) == Ink(s.width, s.cur, ts)[p]
  {
    FeedInk(s, ts);
  }

  lemma QuestionLettered(question: Text)
    ensures Lettered([QuestionText(question)], [Spaces(2) + question])
    ensures Printed([QuestionText(question)]) == QuestionLine(question)
  {
    PlainOfRunes(Spaces(2));
    PlainOfRunes(question);
    PlainJoin(Runes(Spaces(2)), Spaces(2), Runes(question), question);
    PlainConcat(QuestionText(question), [Newline]);
    assert Plain([Newline]) == [Newline];
    assert Printed([]) == [];
  }

  /** A select question stands behind two blanks. */
  lemma QuestionShows(s: Screen, question: Text, j: nat)
    requires s.Valid() && s.AtMargin() && Printable(question) && j < |question|
    ensures var t := Feed(s, QuestionLine(question));
            t.width == s.width && CharAt(t, s.cur.row, 2 + j) == question[j]
  {
    QuestionLettered(question);
    PrintedShows(s.width, s.cur.row, [QuestionText(question)], [Spaces(2) + question], 0, 2 + j);
    QuestionPiece(question);
    assert s.cur == Cursor(s.cur.row, 0, false);
    CharFrom(s, QuestionLine(question), s.cur.row, 2 + j, question[j]);
  }
}
