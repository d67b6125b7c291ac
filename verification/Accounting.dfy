/**
 What the header knows, what the terminal shows, and why each way of printing below the header keeps
 a repaint possible.
 */
module Accounting {
  import opened Arithmetic
  import opened Utf8
  import opened Terminal
  import opened RowCount
  import opened SelectBlock
  import opened SelectKeys
  import opened SelectSession
  import opened HeaderPaint

  /** The header's own idea of the terminal: its first row, its height, the rows it has booked below
      it, and the running column state. */
  datatype Ledger = Ledger(home: int, rows: nat, body: nat, col: int, pending: bool, lastNL: bool)

  function Tallied(l: Ledger): (t: Tally) {
    Tally(l.col, l.body, l.pending)
  }

  lemma {:induction false} RowsNeverFall(width: int, a: Tally, ts: seq<Token>)
    ensures Account(width, a, ts).rows >= a.rows
    decreases |ts|
  {
    if ts != [] {
      RowsNeverFall(width, Charge(width, a, ts[0]), ts[1..]);
    }
  }

  /** The ledger once `ts` is charged. */
  function Charged(width: int, l: Ledger, ts: seq<Token>): (r: Ledger)
    ensures Tallied(r) == Account(width, Tallied(l), ts)
    ensures r.home == l.home && r.rows == l.rows && r.body >= l.body && r.lastNL == l.lastNL
  {
    RowsNeverFall(width, Tallied(l), ts);
    var z := Account(width, Tallied(l), ts);
    l.(body := z.rows, col := z.col, pending := z.pending)
  }

  /** The ledger after a write of `bytes`. */
  function Booked(width: int, l: Ledger, bytes: seq<byte>): (r: Ledger)
    ensures r.home == l.home && r.rows == l.rows && r.body >= l.body
  {
    if bytes == [] then l else Charged(width, l, Tokens(bytes)).(lastNL := bytes[|bytes| - 1] == NL)
  }

  /** The same for a non-empty run of tokens. */
  function BookedTokens(width: int, l: Ledger, ts: seq<Token>): (r: Ledger)
    requires ts != []
    ensures r.home == l.home && r.rows == l.rows && r.body >= l.body
  {
    Charged(width, l, ts).(lastNL := ts[|ts| - 1] == Newline)
  }

  /** Counting from zero and adding is booking. */
  lemma BookedFromZero(width: int, l: Ledger, ts: seq<Token>)
    ensures var z := Account(width, Tally(l.col, 0, l.pending), ts);
            z.rows >= 0 && Charged(width, l, ts) == l.(body := l.body + z.rows, col := z.col, pending := z.pending)
  {
    AccountFromZero(width, Tallied(l), ts);
    RowsNeverFall(width, Tally(l.col, 0, l.pending), ts);
  }

  /** Bytes the accounting is written for: complete text, line ends and styling. */
  predicate Transcript(bytes: seq<byte>) {
    AllComplete(Tokens(bytes)) && AllInky(Tokens(bytes))
  }

  // ---------------------------------------------------------------------------------------
  // Bytes and tokens
  // ---------------------------------------------------------------------------------------

  lemma EncodeOfLexed(s: seq<byte>)
    requires s != []
    ensures EncodeToken(Lex(s).0) == s[..Lex(s).1]
  {
    if s[0] == ESC && |s| > 1 && s[1] == BRACKET {
      var j := FinalIndex(s, 2);
      if j < |s| {
        assert s[..j + 1] == [ESC, BRACKET] + s[2..j] + [s[j]];
      } else {
        assert s[..|s|] == s;
      }
    }
  }

  /** Lexing loses no byte. */
  lemma {:induction false} EncodeOfTokens(s: seq<byte>)
    ensures Encode(Tokens(s)) == s
    decreases |s|
  {
    if s != [] {
      EncodeOfLexed(s);
      var (t, n) := Lex(s);
      EncodeOfTokens(s[n..]);
      Rejoin(s, t, n, Tokens(s[n..]));
    }
  }

  lemma JoinEncoded(t: Token, ts: seq<Token>)
    ensures Encode([t] + ts) == EncodeToken(t) + Encode(ts)
  {
    assert ([t] + ts)[1..] == ts;
  }

  lemma Rejoin(s: seq<byte>, t: Token, n: nat, ts: seq<Token>)
    requires n <= |s| && EncodeToken(t) == s[..n] && Encode(ts) == s[n..]
    ensures Encode([t] + ts) == s
  {
    JoinEncoded(t, ts);
    assert s == s[..n] + s[n..];
  }

  lemma LastByteOfToken(t: Token)
    requires Complete(t)
    ensures EncodeToken(t) != []
    ensures EncodeToken(t)[|EncodeToken(t)| - 1] == NL ==> t == Newline
  {
  }

  lemma EncodedLast(ts: seq<Token>)
    requires ts != [] && EncodeToken(ts[|ts| - 1]) != []
    ensures Encode(ts) != []
    ensures var last := EncodeToken(ts[|ts| - 1]);
            Encode(ts)[|Encode(ts)| - 1] == last[|last| - 1]
  {
    var front, last := ts[..|ts| - 1], ts[|ts| - 1];
    assert ts == front + [last];
    EncodeConcat(front, [last]);
    JoinEncoded(last, []);
    assert [last] + [] == [last];
  }

  /** A newline byte at the end of complete tokens is a newline token. */
  lemma LastNewline(s: seq<byte>)
    requires s != [] && AllComplete(Tokens(s)) && s[|s| - 1] == NL
    ensures var ts := Tokens(s); ts != [] && ts[|ts| - 1] == Newline
  {
    var ts := Tokens(s);
    EncodeOfTokens(s);
    LastByteOfToken(ts[|ts| - 1]);
    EncodedLast(ts);
  }

  lemma NewlineEndsAtMargin(width: int, a: Tally, ts: seq<Token>)
    requires ts != [] && ts[|ts| - 1] == Newline
    ensures var z := Account(width, a, ts); z.col == 0 && !z.pending
  {
    var front := ts[..|ts| - 1];
    assert ts == front + [Newline];
    AccountConcat(width, a, front, [Newline]);
  }

  /** Booking the bytes of complete tokens is booking the tokens. */
  lemma BookedOfEncode(width: int, l: Ledger, ts: seq<Token>)
    requires ts != [] && AllComplete(ts)
    ensures Encode(ts) != [] && Tokens(Encode(ts)) == ts
    ensures Booked(width, l, Encode(ts)) == BookedTokens(width, l, ts)
  {
    TokensOfEncode(ts);
    LastByteOfToken(ts[|ts| - 1]);
    EncodedLast(ts);
  }

  /** On a fresh line the ledger is at the margin. */
  predicate Tidy(l: Ledger) {
    l.lastNL ==> l.col == 0 && !l.pending
  }

  lemma BookedIsTidy(width: int, l: Ledger, bytes: seq<byte>)
    requires Tidy(l) && AllComplete(Tokens(bytes))
    ensures Tidy(Booked(width, l, bytes)) && Booked(width, l, bytes).body >= l.body
  {
    if bytes != [] && bytes[|bytes| - 1] == NL {
      LastNewline(bytes);
      NewlineEndsAtMargin(width, Tallied(l), Tokens(bytes));
    }
  }

  // ---------------------------------------------------------------------------------------
  // True distance
  // ---------------------------------------------------------------------------------------

  /** The tally is the terminal's: the cursor is so many rows below the header, in that column, with
      that wrap pending. */
  predicate Synced(s: Screen, home: int, n: nat, t: Tally) {
    t.rows >= 0 && Below(s, home, n, t.rows) && Agrees(t, s)
  }

  ghost predicate HeaderRowsKept(a: Screen, b: Screen, home: int, n: nat) {
    forall r | home <= r < home + n :: SameRow(a.cells, b.cells, r)
  }

  /** Whatever text appears below the header, counting all of it keeps the tally true and the header
      rows untouched. */
  lemma TextStaysSynced(s: Screen, home: int, n: nat, t: Tally, ts: seq<Token>)
    requires Synced(s, home, n, t) && AllInky(ts)
    ensures Synced(Feed(s, ts), home, n, Account(s.width, t, ts))
    ensures HeaderRowsKept(s, Feed(s, ts), home, n)
  {
    CountRefinesTerminal(s, t, ts);
    InkStaysBelow(s, home, n, t.rows, ts);
    RowsNeverFall(s.width, t, ts);
  }

  /** How far the cursor is below the header's last row. */
  function Depth(s: Screen, home: int, n: nat): (d: int) {
    s.cur.row - home - n
  }

  // ---------------------------------------------------------------------------------------
  // Typed characters
  // ---------------------------------------------------------------------------------------

  /** What the terminal echoes of `typed`, and of the Enter behind it. */
  function Typed(typed: Text, entered: bool): (ts: seq<Token>) {
    Runes(typed) + Blank(entered)
  }

  lemma TypedIsText(typed: Text, entered: bool)
    requires Printable(typed)
    ensures AllComplete(Typed(typed, entered)) && AllInky(Typed(typed, entered))
    ensures entered ==> Typed(typed, entered) != [] && Typed(typed, entered)[|Typed(typed, entered)| - 1] == Newline
  {
  }

  /** An answer that ended in Enter leaves the margin. */
  lemma BookedAnswer(width: int, l: Ledger, answer: Text)
    requires Printable(answer)
    ensures var ts := Typed(answer, true);
            var z := Account(width, Tally(l.col, 0, l.pending), ts);
            && Tokens(Encode(ts)) == ts && z.rows >= 0
            && BookedTokens(width, l, ts) == l.(body := l.body + z.rows, col := 0, pending := false, lastNL := true)
  {
    var ts := Typed(answer, true);
    TypedIsText(answer, true);
    TokensOfEncode(ts);
    NewlineEndsAtMargin(width, Tally(l.col, 0, l.pending), ts);
    BookedFromZero(width, l, ts);
  }

  // ---------------------------------------------------------------------------------------
  // The first paint
  // ---------------------------------------------------------------------------------------

  function StyledRows(color: bool, frame: Frame): (ls: seq<seq<Token>>)
    ensures |ls| == |frame|
    ensures forall i | 0 <= i < |frame| :: ls[i] == Styled(color, DIM, frame[i])
  {
    seq(|frame|, i requires 0 <= i < |frame| => Styled(color, DIM, frame[i]))
  }

  function RowWidths(frame: Frame): (ks: seq<nat>)
    ensures |ks| == |frame|
    ensures forall i | 0 <= i < |frame| :: ks[i] == |frame[i]|
  {
    seq(|frame|, i requires 0 <= i < |frame| => |frame[i]|)
  }

  /** The first paint: the frame's rows with no cursor motion at all. */
  function FirstPaint(color: bool, frame: Frame): (ts: seq<Token>) {
    Printed(StyledRows(color, frame))
  }

  lemma {:induction false} NarrowRows(width: nat, ks: seq<nat>)
    requires width > 0 && forall i | 0 <= i < |ks| :: ks[i] < width
    ensures RowsOf(width, ks) == |ks|
  {
    if ks != [] {
      NarrowRows(width, ks[1..]);
    }
  }

  lemma FirstPaintComplete(color: bool, frame: Frame)
    requires forall i | 0 <= i < |frame| :: Printable(frame[i])
    ensures AllComplete(FirstPaint(color, frame)) && AllInky(FirstPaint(color, frame))
  {
    var ls, ks := StyledRows(color, frame), RowWidths(frame);
    forall i | 0 <= i < |frame| ensures Piece(ls[i], ks[i]) {
      StyledPiece(color, DIM, frame[i]);
    }
    PrintedInky(ls, ks);
  }

  /** After the first paint the header occupies exactly its own rows and nothing is below it. */
  lemma FirstPaintSyncs(s: Screen, color: bool, frame: Frame)
    requires s.Valid() && s.AtMargin() && Fits(frame, s.width)
    ensures AllComplete(FirstPaint(color, frame)) && AllInky(FirstPaint(color, frame))
    ensures Synced(Feed(s, FirstPaint(color, frame)), s.cur.row, |frame|, Tally(0, 0, false))
  {
    var ls, ks := StyledRows(color, frame), RowWidths(frame);
    forall i | 0 <= i < |frame| ensures Piece(ls[i], ks[i]) {
      StyledPiece(color, DIM, frame[i]);
    }
    PrintedInky(ls, ks);
    PrintedRows(s.width, ls, ks);
    NarrowRows(s.width, ks);
    var ts := FirstPaint(color, frame);
    CountRefinesTerminal(s, Tally(0, 0, false), ts);
    InkStaysBelow(s, s.cur.row, 0, 0, ts);
  }

  lemma {:induction false} FirstPaintInk(width: nat, row: int, color: bool, frame: Frame)
    requires Fits(frame, width) && 0 < width
    ensures Ink(width, Cursor(row, 0, false), FirstPaint(color, frame)) == FrameInk(row, frame)
    decreases |frame|
  {
    if frame != [] {
      var line, rest := Styled(color, DIM, frame[0]) + [Newline], FirstPaint(color, frame[1..]);
      assert FirstPaint(color, frame) == line + rest by {
        assert StyledRows(color, frame)[1..] == StyledRows(color, frame[1..]);
      }
      StyledLineInk(width, row, color, frame[0]);
      InkConcat(width, Cursor(row, 0, false), line, rest);
      FirstPaintInk(width, row + 1, color, frame[1..]);
    }
  }

  lemma StyledLineInk(width: nat, row: int, color: bool, x: Text)
    requires |x| < width
    ensures var line := Styled(color, DIM, x) + [Newline];
            && Ink(width, Cursor(row, 0, false), line) == RowInk(row, 0, x)
            && Travel(width, Cursor(row, 0, false), line) == Cursor(row + 1, 0, false)
  {
    PlainSameInk(width, Cursor(row, 0, false), Styled(color, DIM, x) + [Newline]);
    PlainOfStyledLine(color, x);
    InkOfLine(width, Cursor(row, 0, false), x);
  }

  /** The first paint puts every character of the frame in its place, row below row, and changes no other
      cell. */
  lemma FirstPaintShows(s: Screen, color: bool, frame: Frame)
    requires s.Valid() && s.AtMargin() && Fits(frame, s.width)
    ensures var t, home := Feed(s, FirstPaint(color, frame)), s.cur.row;
            && Inked(t.cells, home, frame)
            && forall p: (int, int) | !InFrame(home, frame, p) :: SameCell(s.cells, t.cells, p)
  {
    FirstPaintComplete(color, frame);
    FeedInk(s, FirstPaint(color, frame));
    FirstPaintInk(s.width, s.cur.row, color, frame);
    OverlayShows(s.cells, s.cur.row, frame);
  }

  lemma OverlayShows(cells: Cells, home: int, frame: Frame)
    ensures var m := cells + FrameInk(home, frame);
            Inked(m, home, frame) && forall p: (int, int) | !InFrame(home, frame, p) :: SameCell(cells, m, p)
  {
    var m := cells + FrameInk(home, frame);
    forall i, c | 0 <= i < |frame| && 0 <= c < |frame[i]| ensures At(m, home + i, c) == frame[i][c] {
      FrameInkCells(home, frame, (home + i, c));
      assert (home + i, c) in m;
    }
    forall p: (int, int) | !InFrame(home, frame, p) ensures SameCell(cells, m, p) {
      FrameInkCells(home, frame, p);
    }
  }

  // ---------------------------------------------------------------------------------------
  // The whole picture
  // ---------------------------------------------------------------------------------------

  /** Everything the header and its terminal are. `quiet` is the terminal as it would be without
      repaints; `repainted` says whether there has been one; `afloat`, that the terminal has reflowed
      and no resize handler has finished since. */
  datatype View = View(s: Screen, quiet: Screen, l: Ledger, art: Art, f: Flags)

  datatype Art = Art(frames: seq<Frame>, color: bool, idx: int, dir: int, lastDrawn: int, repainted: bool)

  datatype Flags = Flags(running: bool, stopped: bool, scrolledOff: bool, stale: bool, animating: bool, afloat: bool)

  predicate AllFit(frames: seq<Frame>, width: nat) {
    forall i | 0 <= i < |frames| :: Fits(frames[i], width)
  }

  predicate Uniform(frames: seq<Frame>, rows: nat) {
    forall i | 0 <= i < |frames| :: |frames[i]| == rows
  }

  /** Frames of one height and printable rows; indices in range. */
  predicate Formed(v: View) {
    && v.art.frames != [] && v.l.rows >= 1 && Uniform(v.art.frames, v.l.rows)
    && (forall i, j | 0 <= i < |v.art.frames| && 0 <= j < |v.art.frames[i]| :: Printable(v.art.frames[i][j]))
    && 0 <= v.art.idx < |v.art.frames| && 0 <= v.art.lastDrawn < |v.art.frames| && (v.art.dir == 1 || v.art.dir == -1)
    && v.quiet.width == v.s.width
  }

  /** A repaint is not possible any more, whatever is known of the viewport's height. */
  predicate Retired(f: Flags) {
    f.scrolledOff || f.stale || !f.animating
  }

  /** A repaint that can read the viewport's height is not possible any more. */
  predicate Sealed(v: View) {
    Retired(v.f) || v.l.rows + v.l.body >= v.s.height
  }

  // `InStep` and `Good` are conjunctions written as a quantifier over the names of their conjuncts.
  // Read them as the list under `StepHolds` and `Holds`; the quantifier keeps the conjuncts closed
  // to the solver until `OpenStep` or `OpenGood` names them.

  /** What "in step" comprises. */
  datatype StepFacet = Standing | Fitting | Shown

  ghost predicate StepHolds(v: View, f: StepFacet) {
    match f
    case Standing =>
      var d := Depth(v.s, v.l.home, v.l.rows);
      d >= 0 && Below(v.s, v.l.home, v.l.rows, d)
    case Fitting => AllFit(v.art.frames, v.s.width)
    case Shown => ShowsLast(v.s.cells, v.l, v.art)
  }

  /** The header rows show the frame last drawn: the first paint puts its characters in place, a repaint
      clears the rest of its rows too. */
  ghost predicate ShowsLast(cells: Cells, l: Ledger, art: Art) {
    && 0 <= art.lastDrawn < |art.frames| && |art.frames[art.lastDrawn]| == l.rows
    && if art.repainted then Shows(cells, l.home, art.frames[art.lastDrawn])
       else Inked(cells, l.home, art.frames[art.lastDrawn])
  }

  /** The cursor is below the header, the frames fit, and the header shows the frame last drawn. */
  ghost predicate InStep(v: View) {
    forall f: StepFacet :: StepHolds(v, f)
  }

  lemma OpenStep(v: View)
    requires InStep(v)
    ensures Depth(v.s, v.l.home, v.l.rows) >= 0 && Below(v.s, v.l.home, v.l.rows, Depth(v.s, v.l.home, v.l.rows))
    ensures AllFit(v.art.frames, v.s.width)
    ensures ShowsLast(v.s.cells, v.l, v.art)
  {
    assert StepHolds(v, Standing) && StepHolds(v, Fitting) && StepHolds(v, Shown);
  }

  /** What the invariant of a run comprises. */
  datatype Facet = Placement | Picture | Breadth | Readiness

  ghost predicate Holds(v: View, f: Facet) {
    match f
    case Placement => v.s.Valid() && v.l.body >= 1 && Tidy(v.l)
    case Picture => SameOutside(v.s, v.quiet, v.l.home, v.l.rows)
    case Breadth => Retired(v.f) || v.f.afloat || AllFit(v.art.frames, v.s.width)
    case Readiness => InStep(v) || Sealed(v) || v.f.afloat
  }

  /** The invariant of a run: outside the header rows the terminal is what it would be without
      repaints, and while a repaint is still possible and the terminal has not reflowed, the header is
      where it was. */
  ghost predicate Good(v: View) {
    forall f: Facet :: Holds(v, f)
  }

  lemma OpenGood(v: View)
    requires Good(v)
    ensures v.s.Valid() && v.l.body >= 1 && Tidy(v.l)
    ensures SameOutside(v.s, v.quiet, v.l.home, v.l.rows)
    ensures Retired(v.f) || v.f.afloat || AllFit(v.art.frames, v.s.width)
    ensures InStep(v) || Sealed(v) || v.f.afloat
  {
    assert Holds(v, Placement) && Holds(v, Picture) && Holds(v, Breadth) && Holds(v, Readiness);
  }

  /** Where a repaint goes from here: it climbs to the header's first row, the frame's rows stay clear of
      the viewport's last row, and the way down ends on the row where the cursor was. */
  predicate OnMark(v: View) {
    && v.s.AtMargin() && Target(v.s, v.l.rows, v.l.body) == v.l.home
    && v.l.home + v.l.rows < v.s.top + v.s.height
    && Min(v.s.top + v.s.height - 1, v.l.home + v.l.rows + v.l.body) == v.s.cur.row
  }

  // ---------------------------------------------------------------------------------------
  // Printing
  // ---------------------------------------------------------------------------------------

  /** The view after both terminals were fed `ts`. */
  function Fed(v: View, ts: seq<Token>): (r: View)
    ensures r.s.width == v.s.width && r.quiet.width == v.quiet.width
  {
    FeedKeepsSize(v.s, ts);
    FeedKeepsSize(v.quiet, ts);
    v.(s := Feed(v.s, ts), quiet := Feed(v.quiet, ts))
  }

  /** The view after `bytes` were printed and booked. */
  function Wrote(v: View, bytes: seq<byte>): (r: View)
    ensures r == v.(s := r.s, quiet := r.quiet, l := r.l)
    ensures r.l.home == v.l.home && r.l.rows == v.l.rows && r.l.body >= v.l.body
    ensures r.s.width == v.s.width && r.quiet.width == v.quiet.width
  {
    Fed(v, Tokens(bytes)).(l := Booked(v.s.width, v.l, bytes))
  }

  lemma FeedKeepsPicture(v: View, ts: seq<Token>)
    requires v.s.Valid() && SameOutside(v.s, v.quiet, v.l.home, v.l.rows)
    ensures Feed(v.s, ts).Valid() && Feed(v.s, ts).width == v.s.width && Feed(v.s, ts).height == v.s.height
    ensures SameOutside(Feed(v.s, ts), Feed(v.quiet, ts), v.l.home, v.l.rows)
  {
    FeedValid(v.s, ts);
    FeedOutside(v.s, v.quiet, v.l.home, v.l.rows, ts);
  }

  /** Text below the header keeps it in step, booked or not. */
  lemma TextKeepsStep(v: View, ts: seq<Token>)
    requires InStep(v) && AllInky(ts)
    ensures InStep(Fed(v, ts))
  {
    OpenStep(v);
    var d := Depth(v.s, v.l.home, v.l.rows);
    InkStaysBelow(v.s, v.l.home, v.l.rows, d, ts);
    FeedValid(v.s, ts);
    if v.art.repainted {
      ShowsKept(v.s.cells, Feed(v.s, ts).cells, v.l.home, v.art.frames[v.art.lastDrawn]);
    } else {
      InkedKept(v.s.cells, Feed(v.s, ts).cells, v.l.home, v.art.frames[v.art.lastDrawn]);
    }
  }

  /** Text keeps the invariant, booked or not. */
  lemma TextKeepsGood(v: View, ts: seq<Token>)
    requires Good(v) && AllInky(ts)
    ensures Good(Fed(v, ts)) && (InStep(v) ==> InStep(Fed(v, ts)))
  {
    OpenGood(v);
    FeedKeepsPicture(v, ts);
    if InStep(v) {
      TextKeepsStep(v, ts);
    }
  }

  /** So does booking rows, true or not. */
  lemma BookingKeepsGood(v: View, l: Ledger)
    requires Good(v) && Tidy(l) && l.home == v.l.home && l.rows == v.l.rows && l.body >= v.l.body
    ensures Good(v.(l := l)) && (InStep(v) ==> InStep(v.(l := l)))
  {
    OpenGood(v);
    if InStep(v) {
      StepIgnoresBooking(v, l);
    }
  }

  lemma StepIgnoresBooking(v: View, l: Ledger)
    requires InStep(v) && l.home == v.l.home && l.rows == v.l.rows
    ensures InStep(v.(l := l))
  {
    OpenStep(v);
  }

  lemma WriteKeepsGood(v: View, bytes: seq<byte>)
    requires Good(v) && Transcript(bytes)
    ensures Good(Wrote(v, bytes)) && (InStep(v) ==> InStep(Wrote(v, bytes)))
  {
    OpenGood(v);
    TextKeepsGood(v, Tokens(bytes));
    BookedIsTidy(v.s.width, v.l, bytes);
    BookingKeepsGood(Fed(v, Tokens(bytes)), Booked(v.s.width, v.l, bytes));
  }

  // ---------------------------------------------------------------------------------------
  // Repainting
  // ---------------------------------------------------------------------------------------

  lemma OutsideTrans(a: Screen, b: Screen, c: Screen, home: int, n: nat)
    requires SameOutside(b, a, home, n) && SameOutside(b, c, home, n)
    ensures SameOutside(a, c, home, n)
  {
    forall p: (int, int) | !(home <= p.0 < home + n) ensures SameCell(a.cells, c.cells, p) {
      assert SameCell(b.cells, a.cells, p) && SameCell(b.cells, c.cells, p);
    }
  }

  /** The view after frame `i` was painted. */
  function Redrawn(v: View, i: int): (r: View)
    requires 0 <= i < |v.art.frames|
    ensures r.s.width == v.s.width && r.quiet == v.quiet
  {
    FeedKeepsSize(v.s, RedrawTokens(v.art.color, v.art.frames[i], v.l.body));
    v.(s := Feed(v.s, RedrawTokens(v.art.color, v.art.frames[i], v.l.body)),
       art := v.art.(lastDrawn := i, repainted := true))
  }

  /** What the bytes of a repaint do, whatever was booked. */
  lemma RedrawGoes(v: View, i: int, row: int)
    requires v.s.Valid() && v.s.AtMargin() && 0 <= i < |v.art.frames| && Fits(v.art.frames[i], v.s.width)
    requires |v.art.frames[i]| == v.l.rows && v.l.rows >= 1
    requires row == Target(v.s, v.l.rows, v.l.body) && row + v.l.rows < v.s.top + v.s.height
    ensures Redrawn(v, i).s
         == v.s.(cur := Cursor(Min(v.s.top + v.s.height - 1, row + v.l.rows + v.l.body), 0, false),
                 cells := PaintFrame(v.s.cells, row, v.art.frames[i]))
  {
    var f := v.art.frames[i];
    PaintFrameFeed(v.s.(cur := Cursor(row, 0, false)), v.art.color, f);
    ExcursionGoes(v.s, v.l.rows, v.l.body, FrameTokens(v.art.color, f), row, PaintFrame(v.s.cells, row, f));
  }

  /** A repaint made on the mark shows the frame on the header rows, changes nothing else, and keeps
      the invariant. */
  lemma RedrawKeepsGood(v: View, i: int)
    requires Good(v) && !Retired(v.f) && !v.f.afloat && OnMark(v)
    requires 0 <= i < |v.art.frames| && |v.art.frames[i]| == v.l.rows && v.l.rows >= 1
    ensures var w := Redrawn(v, i);
            && Good(w) && (InStep(v) ==> InStep(w))
            && SameOutside(v.s, w.s, v.l.home, v.l.rows)
            && Shows(w.s.cells, v.l.home, v.art.frames[i])
  {
    var f := v.art.frames[i];
    OpenGood(v);
    RedrawGoes(v, i, v.l.home);
    PaintFrameShows(v.s.cells, v.l.home, f);
    PaintFrameElsewhere(v.s.cells, v.l.home, f);
    OutsideTrans(Redrawn(v, i).s, v.s, v.quiet, v.l.home, v.l.rows);
    if InStep(v) {
      OpenStep(v);
    }
  }

  lemma StandsBelow(v: View, i: int)
    requires InStep(v) && 0 <= i < |v.art.frames|
    ensures Below(v.s, v.l.home, v.l.rows, Depth(v.s, v.l.home, v.l.rows)) && Fits(v.art.frames[i], v.s.width)
  {
    OpenStep(v);
  }

  /** A repaint off the mark goes over other rows: too few booked rows land it below the header by exactly
      the rows missing, too many above it by the rows in excess or at the viewport's first row. */
  lemma RedrawOffMark(v: View, i: int, off: int)
    requires InStep(v) && v.s.AtMargin() && 1 <= v.l.body && v.l.rows + v.l.body < v.s.height
    requires off == Depth(v.s, v.l.home, v.l.rows) - v.l.body
    requires 0 <= i < |v.art.frames| && |v.art.frames[i]| == v.l.rows && v.l.rows >= 1
    ensures var row := if off >= 0 then v.l.home + off else Max(v.s.top, v.l.home + off);
            && Redrawn(v, i).s.cells == PaintFrame(v.s.cells, row, v.art.frames[i])
            && (off >= 0 ==> Redrawn(v, i).s == v.s.(cells := PaintFrame(v.s.cells, row, v.art.frames[i])))
  {
    StandsBelow(v, i);
    RedrawGoes(v, i, if off >= 0 then v.l.home + off else Max(v.s.top, v.l.home + off));
  }

  /** Flags that only take possibilities away keep the invariant. */
  lemma SealKeepsGood(v: View)
    requires Good(v)
    ensures Good(v.(f := v.f.(scrolledOff := true))) && (InStep(v) ==> InStep(v.(f := v.f.(scrolledOff := true))))
  {
    OpenGood(v);
    if InStep(v) {
      OpenStep(v);
    }
  }

  /** Flags the invariant does not speak of. */
  lemma FlagsKeepGood(v: View, idx: int, dir: int, running: bool, stopped: bool)
    requires Good(v)
    ensures var w := v.(art := v.art.(idx := idx, dir := dir), f := v.f.(running := running, stopped := stopped));
            Good(w) && (InStep(v) ==> InStep(w))
  {
    OpenGood(v);
    if InStep(v) {
      OpenStep(v);
    }
  }

  /** A reflow makes the accounting meaningless. */
  lemma ReflowKeepsGood(v: View, s: Screen)
    requires s.Valid() && Good(v)
    ensures Good(v.(s := s, quiet := s, f := v.f.(afloat := true)))
  {
    OpenGood(v);
  }

  /** A finished handler rules every repaint out. */
  lemma HandledKeepsGood(v: View, w: View)
    requires Good(v) && w == v.(f := v.f.(running := w.f.running, stale := w.f.stale, animating := w.f.animating,
                                          afloat := false))
    requires w.f.stale || !w.f.animating
    ensures Good(w)
  {
    OpenGood(v);
  }

  // ---------------------------------------------------------------------------------------
  // The select prompt
  // ---------------------------------------------------------------------------------------

  /** The ledger once a select prompt's measured rows replace what its redraws booked. */
  function Reconciled(l: Ledger, rows: nat): (r: Ledger) {
    l.(body := l.body + rows, col := 0, pending := false, lastNL := true)
  }

  /** How a prompt ends does not depend on the terminal. */
  lemma {:induction false} OutcomeIsInput(s: Screen, t: Screen, m: nat, n: nat, e: Session)
    requires e.Ok()
    ensures Played(s, m, e).outcome == Played(t, n, e).outcome && Played(s, m, e).shown == Played(t, n, e).shown
    decreases |e.input|
  {
    var res := Decode(e.input, e.ending).0;
    if e.patience > 0 && res.Pressed? && res.key != KeyCancel && res.key != KeyConfirm {
      var i := e.Next().start;
      if res.key == KeyNone {
        OutcomeIsInput(s, t, m, n, e.Next());
      } else {
        OutcomeIsInput(Reprinted(s, m, e.options, i, e.color), Reprinted(t, n, e.options, i, e.color), m, n, e.Next());
      }
    }
  }

  /** The view after a whole select prompt, its rows reconciled. */
  function Selected(v: View, e: Session): (r: View)
    requires e.Ok()
    ensures r == v.(s := r.s, quiet := r.quiet, l := r.l)
    ensures r.l.home == v.l.home && r.l.rows == v.l.rows && r.l.body >= v.l.body && r.l.lastNL
    ensures r.s.width == v.s.width && r.quiet.width == v.quiet.width
  {
    PromptedSize(v.s, e);
    PromptedSize(v.quiet, e);
    var finish := Prompted(v.s, e);
    v.(s := finish.screen, quiet := Prompted(v.quiet, e).screen,
       l := Reconciled(v.l, SelectRows(v.s.width, e.question, e.options, finish.outcome.Confirmed?)))
  }

  /** Redraws and all, the prompt does to both terminals what it does to one. */
  lemma {:induction false} PlayedOutside(s: Screen, t: Screen, rows: nat, e: Session, home: int, n: nat)
    requires e.Ok() && SameOutside(s, t, home, n)
    ensures SameOutside(Played(s, rows, e).screen, Played(t, rows, e).screen, home, n)
    decreases |e.input|
  {
    var res := Decode(e.input, e.ending).0;
    FeedOutside(s, t, home, n, [Newline]);
    if e.patience > 0 && res.Pressed? && res.key != KeyCancel && res.key != KeyConfirm {
      var i := e.Next().start;
      if res.key == KeyNone {
        PlayedOutside(s, t, rows, e.Next(), home, n);
      } else {
        FeedOutside(s, t, home, n, [Up(rows)]);
        FeedOutside(Feed(s, [Up(rows)]), Feed(t, [Up(rows)]), home, n, Block(e.options, i, e.color));
        PlayedOutside(Reprinted(s, rows, e.options, i, e.color), Reprinted(t, rows, e.options, i, e.color), rows,
                      e.Next(), home, n);
      }
    }
  }

  lemma PromptedOutside(s: Screen, t: Screen, e: Session, home: int, n: nat)
    requires e.Ok() && SameOutside(s, t, home, n)
    ensures SameOutside(Prompted(s, e).screen, Prompted(t, e).screen, home, n)
  {
    var q, b := QuestionLine(e.question), Block(e.options, e.start, e.color);
    FeedOutside(s, t, home, n, q);
    FeedOutside(Feed(s, q), Feed(t, q), home, n, b);
    PlayedOutside(Feed(Feed(s, q), b), Feed(Feed(t, q), b), OptionRows(s.width, e.options), e, home, n);
  }

  /** Where the option block fits the viewport the prompt only printed text; where it does not, the
      reconciled count alone rules a repaint out. */
  lemma SelectKeepsGood(v: View, e: Session)
    requires Good(v) && e.Ok()
    ensures Good(Selected(v, e))
    ensures OptionRows(v.s.width, e.options) < v.s.height && InStep(v) ==> InStep(Selected(v, e))
    ensures OptionRows(v.s.width, e.options) >= v.s.height ==> Sealed(Selected(v, e))
  {
    SelectKeepsPicture(v, e);
    if OptionRows(v.s.width, e.options) < v.s.height && InStep(v) {
      SelectKeepsStep(v, e);
    }
    SealedBySelect(v, e);
    GoodFromParts(Selected(v, e));
  }

  lemma GoodFromParts(v: View)
    requires v.s.Valid() && v.l.body >= 1 && Tidy(v.l) && SameOutside(v.s, v.quiet, v.l.home, v.l.rows)
    requires Retired(v.f) || v.f.afloat || AllFit(v.art.frames, v.s.width)
    requires InStep(v) || Sealed(v) || v.f.afloat
    ensures Good(v)
  {
  }

  lemma SelectKeepsPicture(v: View, e: Session)
    requires Good(v) && e.Ok()
    ensures var w := Selected(v, e);
            && w.s.Valid() && w.l.body >= 1 && Tidy(w.l)
            && SameOutside(w.s, w.quiet, v.l.home, v.l.rows)
            && w.s.height == v.s.height && w.s.width == v.s.width
  {
    OpenGood(v);
    PromptedOutside(v.s, v.quiet, e, v.l.home, v.l.rows);
    PromptedSize(v.s, e);
  }

  lemma SealedBySelect(v: View, e: Session)
    requires Good(v) && e.Ok()
    ensures OptionRows(v.s.width, e.options) >= v.s.height || Sealed(v) ==> Sealed(Selected(v, e))
    ensures InStep(v) || Sealed(v) || v.f.afloat
    ensures Retired(v.f) || v.f.afloat || AllFit(v.art.frames, v.s.width)
  {
    OpenGood(v);
    PromptedSize(v.s, e);
  }

  lemma SelectKeepsStep(v: View, e: Session)
    requires Good(v) && e.Ok() && OptionRows(v.s.width, e.options) < v.s.height && InStep(v)
    ensures InStep(Selected(v, e))
  {
    OpenGood(v);
    var r := Prompted(v.s, e);
    var ts := SelectTranscript(e.question, e.options, r.shown, e.color, r.outcome.Confirmed?);
    PromptedIsTranscript(v.s, e);
    SelectTranscriptInky(e.question, e.options, r.shown, e.color, r.outcome.Confirmed?);
    TextKeepsStep(v, ts);
    StepIgnoresQuiet(Fed(v, ts), Selected(v, e));
  }

  lemma StepIgnoresQuiet(v: View, w: View)
    requires InStep(v) && w.s == v.s && w.art.frames == v.art.frames
    requires w.art.lastDrawn == v.art.lastDrawn && w.art.repainted == v.art.repainted
    requires w.l.home == v.l.home && w.l.rows == v.l.rows
    ensures InStep(w)
  {
    OpenStep(v);
  }
}
