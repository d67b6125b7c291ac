/**
 Repainting the header in place: up over everything printed since, clear and rewrite each header
 row, back down. The main result says what that leaves on the screen, cell by cell.
 */
module HeaderPaint {
  import opened Terminal
  import opened SelectBlock
  import opened Arithmetic

  type Frame = seq<Text>

  const CLEAR_LINE: Token := Csi([0x32], EL)

  /** The frame fits `width` columns with one to spare, so no row of it can wrap. */
  predicate Fits(frame: Frame, width: nat) {
    forall i | 0 <= i < |frame| :: Printable(frame[i]) && |frame[i]| < width
  }

  function RowTokens(color: bool, row: Text): (ts: seq<Token>) {
    [CLEAR_LINE] + (Styled(color, DIM, row) + [Newline])
  }

  function FrameTokens(color: bool, frame: Frame): (ts: seq<Token>) {
    if frame == [] then [] else RowTokens(color, frame[0]) + FrameTokens(color, frame[1..])
  }

  function RedrawTokens(color: bool, frame: Frame, body: nat): (ts: seq<Token>) {
    Excursion(|frame|, body, FrameTokens(color, frame))
  }

  // ---------------------------------------------------------------------------------------
  // Cells
  // ---------------------------------------------------------------------------------------

  type Cells = map<(int, int), Glyph>

  /** A text written from `(row, col)` to the right. */
  function RowInk(row: int, col: nat, x: Text): (m: Cells)
    decreases |x|
  {
    if x == [] then map[] else map[(row, col) := x[0]] + RowInk(row, col + 1, x[1..])
  }

  function PaintRow(cells: Cells, row: int, x: Text): (r: Cells) {
    ClearRow(cells, row) + RowInk(row, 0, x)
  }

  function PaintFrame(cells: Cells, home: int, frame: Frame): (r: Cells)
    decreases |frame|
  {
    if frame == [] then cells else PaintFrame(PaintRow(cells, home, frame[0]), home + 1, frame[1..])
  }

  /** Row `row` shows `x` and nothing else. */
  ghost predicate RowShows(cells: Cells, row: int, x: Text) {
    forall c: int :: At(cells, row, c) == if 0 <= c < |x| then x[c] else BLANK
  }

  ghost predicate Shows(cells: Cells, home: int, frame: Frame) {
    forall i | 0 <= i < |frame| :: RowShows(cells, home + i, frame[i])
  }

  /** Every character of the frame is in its place; what is right of its rows is anybody's. */
  ghost predicate Inked(cells: Cells, home: int, frame: Frame) {
    forall i, c | 0 <= i < |frame| && 0 <= c < |frame[i]| :: At(cells, home + i, c) == frame[i][c]
  }

  /** Same cell, written or not. */
  predicate SameCell(a: Cells, b: Cells, p: (int, int)) {
    if p in a then p in b && a[p] == b[p] else p !in b
  }

  /** The two differ at most in the rows `home .. home + n`. */
  ghost predicate SameElsewhere(a: Cells, b: Cells, home: int, n: nat) {
    forall p: (int, int) | !(home <= p.0 < home + n) :: SameCell(a, b, p)
  }

  ghost predicate SameRow(a: Cells, b: Cells, row: int) {
    forall c: int :: SameCell(a, b, (row, c))
  }

  /** Two screens that differ at most in what those rows show: cursor and viewport agree. */
  ghost predicate SameOutside(s: Screen, t: Screen, home: int, n: nat) {
    s.(cells := t.cells) == t && SameElsewhere(s.cells, t.cells, home, n)
  }

  lemma {:induction false} RowInkCells(row: int, col: nat, x: Text)
    ensures var m := RowInk(row, col, x);
            && (forall p :: p in m <==> p.0 == row && col <= p.1 < col + |x|)
            && (forall p | p in m :: m[p] == x[p.1 - col])
    decreases |x|
  {
    if x != [] {
      RowInkCells(row, col + 1, x[1..]);
    }
  }

  lemma PaintRowEffect(cells: Cells, row: int, x: Text)
    ensures RowShows(PaintRow(cells, row, x), row, x)
    ensures SameElsewhere(cells, PaintRow(cells, row, x), row, 1)
  {
    RowInkCells(row, 0, x);
  }

  lemma RowKept(a: Cells, b: Cells, row: int, x: Text)
    requires RowShows(a, row, x) && SameRow(a, b, row)
    ensures RowShows(b, row, x)
  {
    forall c: int ensures At(b, row, c) == At(a, row, c) {
      assert SameCell(a, b, (row, c));
    }
  }

  lemma {:induction false} PaintFrameElsewhere(cells: Cells, home: int, frame: Frame)
    ensures SameElsewhere(cells, PaintFrame(cells, home, frame), home, |frame|)
    decreases |frame|
  {
    if frame != [] {
      var c1 := PaintRow(cells, home, frame[0]);
      var c2 := PaintFrame(c1, home + 1, frame[1..]);
      PaintRowEffect(cells, home, frame[0]);
      PaintFrameElsewhere(c1, home + 1, frame[1..]);
      forall p: (int, int) | !(home <= p.0 < home + |frame|) ensures SameCell(cells, c2, p) {
        assert SameCell(cells, c1, p) && SameCell(c1, c2, p);
      }
    }
  }

  lemma {:induction false} PaintFrameShows(cells: Cells, home: int, frame: Frame)
    ensures Shows(PaintFrame(cells, home, frame), home, frame)
    decreases |frame|
  {
    if frame != [] {
      var c1 := PaintRow(cells, home, frame[0]);
      var c2 := PaintFrame(c1, home + 1, frame[1..]);
      PaintRowEffect(cells, home, frame[0]);
      PaintFrameShows(c1, home + 1, frame[1..]);
      PaintFrameElsewhere(c1, home + 1, frame[1..]);
      RowKept(c1, c2, home, frame[0]);
      forall i | 0 <= i < |frame| ensures RowShows(c2, home + i, frame[i]) {
        if i > 0 {
          assert RowShows(c2, (home + 1) + (i - 1), frame[1..][i - 1]);
        }
      }
    }
  }

  // ---------------------------------------------------------------------------------------
  // Painting one row
  // ---------------------------------------------------------------------------------------

  lemma {:induction false} PlainOfRunes(x: Text)
    ensures Plain(Runes(x)) == Runes(x)
  {
    if x != [] {
      PlainOfRunes(x[1..]);
      assert Runes(x)[1..] == Runes(x[1..]);
      assert Runes(x) == [Rune(x[0])] + Runes(x[1..]);
    }
  }

  lemma PlainOfStyledLine(color: bool, x: Text)
    ensures Plain(Styled(color, DIM, x) + [Newline]) == Runes(x) + [Newline]
  {
    PlainOfRunes(x);
    PlainConcat(Styled(color, DIM, x), [Newline]);
    assert Plain([Newline]) == [Newline];
    if color {
      PlainConcat([DIM] + Runes(x), [RESET]);
      PlainConcat([DIM], Runes(x));
      assert Plain([DIM]) == [] && Plain([RESET]) == [];
    }
  }

  /** A text that stays clear of the last column, and its newline. */
  lemma {:induction false} InkOfLine(width: nat, c: Cursor, x: Text)
    requires !c.pending && c.col + |x| < width
    ensures Travel(width, c, Runes(x) + [Newline]) == Cursor(c.row + 1, 0, false)
    ensures Ink(width, c, Runes(x) + [Newline]) == RowInk(c.row, c.col, x)
    decreases |x|
  {
    var ts := Runes(x) + [Newline];
    if x == [] {
      assert ts == [Newline];
      assert ts[1..] == [];
    } else {
      assert ts[0] == Rune(x[0]) && ts[1..] == Runes(x[1..]) + [Newline];
      InkOfLine(width, Glide(width, c, ts[0]), x[1..]);
    }
  }

  /** A frame's characters, one row below the other. */
  function FrameInk(row: int, frame: Frame): (m: Cells)
    decreases |frame|
  {
    if frame == [] then map[] else RowInk(row, 0, frame[0]) + FrameInk(row + 1, frame[1..])
  }

  predicate InFrame(row: int, frame: Frame, p: (int, int)) {
    row <= p.0 < row + |frame| && 0 <= p.1 < |frame[p.0 - row]|
  }

  lemma RowInkAt(row: int, x: Text, p: (int, int))
    ensures p in RowInk(row, 0, x) <==> p.0 == row && 0 <= p.1 < |x|
    ensures p in RowInk(row, 0, x) ==> RowInk(row, 0, x)[p] == x[p.1]
  {
    RowInkCells(row, 0, x);
  }

  lemma {:induction false} FrameInkCells(row: int, frame: Frame, p: (int, int))
    ensures p in FrameInk(row, frame) <==> InFrame(row, frame, p)
    ensures p in FrameInk(row, frame) ==> FrameInk(row, frame)[p] == frame[p.0 - row][p.1]
    decreases |frame|
  {
    if frame != [] {
      RowInkAt(row, frame[0], p);
      FrameInkCells(row + 1, frame[1..], p);
      if p.0 > row {
        assert p.0 - row < |frame| ==> frame[1..][p.0 - (row + 1)] == frame[p.0 - row];
      }
    }
  }

  lemma PaintRowFeed(s: Screen, color: bool, x: Text)
    requires s.Valid() && s.AtMargin() && |x| < s.width && s.cur.row + 1 < s.top + s.height
    ensures Feed(s, RowTokens(color, x))
         == s.(cur := Cursor(s.cur.row + 1, 0, false), cells := PaintRow(s.cells, s.cur.row, x))
  {
    var line := Styled(color, DIM, x) + [Newline];
    var s1 := Step(s, CLEAR_LINE);
    assert AllInky(line);
    FeedInk(s1, line);
    PlainSameInk(s.width, s.cur, line);
    PlainOfStyledLine(color, x);
    InkOfLine(s.width, s.cur, x);
    FeedConcat(s, [CLEAR_LINE], line);
    assert Feed(s, [CLEAR_LINE]) == s1;
  }

  lemma {:induction false} PaintFrameFeed(s: Screen, color: bool, frame: Frame)
    requires s.Valid() && s.AtMargin() && Fits(frame, s.width) && s.cur.row + |frame| < s.top + s.height
    ensures Feed(s, FrameTokens(color, frame))
         == s.(cur := Cursor(s.cur.row + |frame|, 0, false), cells := PaintFrame(s.cells, s.cur.row, frame))
    decreases |frame|
  {
    if frame != [] {
      var s1 := s.(cur := Cursor(s.cur.row + 1, 0, false), cells := PaintRow(s.cells, s.cur.row, frame[0]));
      PaintRowFeed(s, color, frame[0]);
      PaintFrameFeed(s1, color, frame[1..]);
      FeedConcat(s, RowTokens(color, frame[0]), FrameTokens(color, frame[1..]));
    }
  }

  // ---------------------------------------------------------------------------------------
  // The redraw
  // ---------------------------------------------------------------------------------------

  /** The cursor is `n + body` rows below the header's first row, and the viewport either still
      holds that row or has scrolled only as far as the cursor needed. */
  predicate Below(s: Screen, home: int, n: nat, body: int) {
    && s.Valid()
    && s.cur.row == home + n + body
    && (s.top <= home || s.top == s.cur.row - s.height + 1)
  }

  /** The row a redraw climbs to. */
  function Target(s: Screen, n: nat, body: nat): (row: int) {
    Max(s.top, s.cur.row - (n + body))
  }

  lemma Climb(s: Screen, n: nat)
    requires n >= 1
    ensures Feed(s, [Up(n)]) == s.(cur := Cursor(Max(s.top, s.cur.row - n), s.cur.col, false))
  {
    MoveCountOfParam(n);
    assert Feed(s, [Up(n)]) == Step(s, Up(n));
  }

  lemma Descend(s: Screen, n: nat)
    requires s.AtMargin() && s.cur.row < s.top + s.height
    ensures Feed(s, if n > 0 then [Down(n)] else [])
         == s.(cur := Cursor(Min(s.top + s.height - 1, s.cur.row + n), 0, false))
  {
    if n > 0 {
      MoveCountOfParam(n);
      assert Feed(s, [Down(n)]) == Step(s, Down(n));
    }
  }

  /** Climbing `n + body` rows, printing `ts` there, and going back down `body` rows. */
  function Excursion(n: nat, body: nat, ts: seq<Token>): (us: seq<Token>) {
    [Up(n + body)] + (ts + if body > 0 then [Down(body)] else [])
  }

  /** Whatever the accounting: `ts` is printed from the target row on, and the cursor comes back down
      as far as the viewport reaches. */
  lemma ExcursionGoes(s: Screen, n: nat, body: nat, ts: seq<Token>, row: int, cells: Cells)
    requires s.Valid() && s.AtMargin() && n >= 1 && row == Target(s, n, body) && row + n < s.top + s.height
    requires Feed(s.(cur := Cursor(row, 0, false)), ts) == s.(cur := Cursor(row + n, 0, false), cells := cells)
    ensures Feed(s, Excursion(n, body, ts))
         == s.(cur := Cursor(Min(s.top + s.height - 1, row + n + body), 0, false), cells := cells)
  {
    var s1, s2 := s.(cur := Cursor(row, 0, false)), s.(cur := Cursor(row + n, 0, false), cells := cells);
    var s3 := s2.(cur := Cursor(Min(s.top + s.height - 1, row + n + body), 0, false));
    ClimbTo(s, n + body, row, s1);
    Taken(s1, ts, s2);
    DescendTo(s2, body, s3);
    Around(s, [Up(n + body)], ts, if body > 0 then [Down(body)] else [], s1, s2, s3);
  }

  /** `ts` takes `s` to `t`. Quantified, so that a caller need not look inside. */
  ghost predicate Takes(s: Screen, ts: seq<Token>, t: Screen) {
    forall us: seq<Token> | us == ts :: Feed(s, us) == t
  }

  lemma Taken(s: Screen, ts: seq<Token>, t: Screen)
    requires Feed(s, ts) == t
    ensures Takes(s, ts, t)
  {
  }

  lemma Around(s: Screen, a: seq<Token>, b: seq<Token>, c: seq<Token>, s1: Screen, s2: Screen, s3: Screen)
    requires Takes(s, a, s1) && Takes(s1, b, s2) && Takes(s2, c, s3)
    ensures Feed(s, a + (b + c)) == s3
  {
    assert Feed(s, a) == s1 && Feed(s1, b) == s2 && Feed(s2, c) == s3;
    FeedConcat(s, a, b + c);
    FeedConcat(s1, b, c);
  }

  lemma ClimbTo(s: Screen, n: nat, row: int, t: Screen)
    requires n >= 1 && s.AtMargin() && row == Max(s.top, s.cur.row - n) && t == s.(cur := Cursor(row, 0, false))
    ensures Takes(s, [Up(n)], t)
  {
    Climb(s, n);
  }

  lemma DescendTo(s: Screen, n: nat, t: Screen)
    requires s.AtMargin() && s.cur.row < s.top + s.height
    requires t == s.(cur := Cursor(Min(s.top + s.height - 1, s.cur.row + n), 0, false))
    ensures Takes(s, if n > 0 then [Down(n)] else [], t)
  {
    Descend(s, n);
  }

  /** Believing the cursor `body` rows below the header when it is `depth` rows below, one lands lower
      by the difference and returns to where one was: neither move clamps while header and body are
      shorter than the viewport. */
  lemma ExcursionReturns(s: Screen, home: int, n: nat, depth: nat, body: nat, ts: seq<Token>, cells: Cells)
    requires Below(s, home, n, depth) && s.AtMargin() && n >= 1 && body <= depth && n + body < s.height
    requires var row := home + (depth - body);
             Feed(s.(cur := Cursor(row, 0, false)), ts) == s.(cur := Cursor(row + n, 0, false), cells := cells)
    ensures Feed(s, Excursion(n, body, ts)) == s.(cells := cells)
  {
    ExcursionGoes(s, n, body, ts, home + (depth - body), cells);
  }

  /** Once header and body fill the viewport the header has scrolled off its top, and the climb stops
      at the viewport's first row. */
  lemma ExcursionClamps(s: Screen, home: int, n: nat, body: nat, ts: seq<Token>, cells: Cells)
    requires Below(s, home, n, body) && s.AtMargin() && 1 <= n < s.height <= n + body
    requires Feed(s.(cur := Cursor(s.top, 0, false)), ts) == s.(cur := Cursor(s.top + n, 0, false), cells := cells)
    ensures home < s.top && Feed(s, Excursion(n, body, ts)) == s.(cells := cells)
  {
    ExcursionGoes(s, n, body, ts, s.top, cells);
  }

  /** A redraw that miscounts lands lower by the difference, over the rows printed below. */
  lemma RedrawLandsOffBy(s: Screen, home: int, depth: nat, body: nat, frame: Frame, color: bool)
    requires Below(s, home, |frame|, depth) && s.AtMargin()
    requires frame != [] && Fits(frame, s.width) && body <= depth && |frame| + body < s.height
    ensures Feed(s, RedrawTokens(color, frame, body)) == s.(cells := PaintFrame(s.cells, home + (depth - body), frame))
  {
    var row := home + (depth - body);
    PaintFrameFeed(s.(cur := Cursor(row, 0, false)), color, frame);
    ExcursionReturns(s, home, |frame|, depth, body, FrameTokens(color, frame), PaintFrame(s.cells, row, frame));
  }

  /** While header and body are shorter than the viewport, a redraw reaches the header rows
      without hitting a margin either way: it rewrites those rows, changes no other cell, does
      not scroll, and returns the cursor to where it was. */
  lemma RedrawRepaints(s: Screen, home: int, body: nat, frame: Frame, color: bool)
    requires Below(s, home, |frame|, body) && s.AtMargin()
    requires frame != [] && Fits(frame, s.width)
    requires |frame| + body < s.height
    ensures Feed(s, RedrawTokens(color, frame, body)) == s.(cells := PaintFrame(s.cells, home, frame))
  {
    RedrawLandsOffBy(s, home, body, body, frame, color);
  }

  /** A redraw that is not held back once header and body fill the viewport paints the viewport's
      first rows instead. */
  lemma RedrawClamps(s: Screen, home: int, body: nat, frame: Frame, color: bool)
    requires Below(s, home, |frame|, body) && s.AtMargin()
    requires frame != [] && Fits(frame, s.width) && |frame| < s.height <= |frame| + body
    ensures home < s.top
    ensures Feed(s, RedrawTokens(color, frame, body)) == s.(cells := PaintFrame(s.cells, s.top, frame))
  {
    PaintFrameFeed(s.(cur := Cursor(s.top, 0, false)), color, frame);
    ExcursionClamps(s, home, |frame|, body, FrameTokens(color, frame), PaintFrame(s.cells, s.top, frame));
  }

  lemma {:induction false} FrameTokensComplete(color: bool, frame: Frame)
    requires forall i | 0 <= i < |frame| :: Printable(frame[i])
    ensures AllComplete(FrameTokens(color, frame))
  {
    if frame != [] {
      FrameTokensComplete(color, frame[1..]);
      StyledPiece(color, DIM, frame[0]);
    }
  }

  lemma RedrawTokensComplete(color: bool, frame: Frame, body: nat)
    requires frame != [] && forall i | 0 <= i < |frame| :: Printable(frame[i])
    ensures AllComplete(RedrawTokens(color, frame, body))
  {
    FrameTokensComplete(color, frame);
    MoveCountOfParam(|frame| + body);
    if body > 0 {
      MoveCountOfParam(body);
    }
  }

  // ---------------------------------------------------------------------------------------
  // Writing below the header
  // ---------------------------------------------------------------------------------------

  lemma {:induction false} InkBelow(width: nat, c: Cursor, ts: seq<Token>)
    requires 0 < width && c.col < width
    ensures forall p | p in Ink(width, c, ts) :: p.0 >= c.row
    decreases |ts|
  {
    if ts != [] {
      InkBelow(width, Glide(width, c, ts[0]), ts[1..]);
    }
  }

  /** Text written below the header keeps the geometry and leaves every header row alone. */
  lemma InkStaysBelow(s: Screen, home: int, n: nat, body: nat, ts: seq<Token>)
    requires Below(s, home, n, body) && AllInky(ts)
    ensures var s1 := Feed(s, ts);
            && s1.cur.row >= s.cur.row
            && Below(s1, home, n, body + s1.cur.row - s.cur.row)
            && forall r | home <= r < home + n :: SameRow(s.cells, s1.cells, r)
  {
    FeedInk(s, ts);
    FeedValid(s, ts);
    TravelForward(s.width, s.cur, ts);
    InkBelow(s.width, s.cur, ts);
  }

  lemma InkedKept(a: Cells, b: Cells, home: int, frame: Frame)
    requires Inked(a, home, frame)
    requires forall r | home <= r < home + |frame| :: SameRow(a, b, r)
    ensures Inked(b, home, frame)
  {
    forall i, c | 0 <= i < |frame| && 0 <= c < |frame[i]| ensures At(b, home + i, c) == frame[i][c] {
      assert SameRow(a, b, home + i) && SameCell(a, b, (home + i, c));
    }
  }

  lemma ShowsKept(a: Cells, b: Cells, home: int, frame: Frame)
    requires Shows(a, home, frame)
    requires forall r | home <= r < home + |frame| :: SameRow(a, b, r)
    ensures Shows(b, home, frame)
  {
    forall i | 0 <= i < |frame| ensures RowShows(b, home + i, frame[i]) {
      RowKept(a, b, home + i, frame[i]);
    }
  }

  /** What the header rows show never influences anything else on the screen. */
  lemma {:induction false} FeedOutside(s: Screen, t: Screen, home: int, n: nat, ts: seq<Token>)
    requires SameOutside(s, t, home, n)
    ensures SameOutside(Feed(s, ts), Feed(t, ts), home, n)
    decreases |ts|
  {
    if ts != [] {
      StepOutside(s, t, home, n, ts[0]);
      FeedOutside(Step(s, ts[0]), Step(t, ts[0]), home, n, ts[1..]);
    }
  }

  lemma StepOutside(s: Screen, t: Screen, home: int, n: nat, tok: Token)
    requires SameOutside(s, t, home, n)
    ensures SameOutside(Step(s, tok), Step(t, tok), home, n)
  {
    var s1, t1 := Step(s, tok), Step(t, tok);
    forall p: (int, int) | !(home <= p.0 < home + n) ensures SameCell(s1.cells, t1.cells, p) {
      assert SameCell(s.cells, t.cells, p);
    }
  }
}
