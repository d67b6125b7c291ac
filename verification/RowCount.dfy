/**
 The wizard's row accounting: how many rows a write takes, which column it ends in, and whether
 it leaves a wrap pending.

 `AdvanceRows` is the byte loop; `Account` is the same count read off the token stream. The main
 results tie both to the terminal: on text they agree exactly, and on a stream that also moves
 the cursor the count is off by the net climb and by nothing else.
 */
module RowCount {
  import opened Utf8
  import opened Terminal
  import opened Arithmetic

  datatype Tally = Tally(col: int, rows: int, pending: bool)

  function Charge(width: int, a: Tally, t: Token): (r: Tally) {
    match t
    case Newline => Tally(0, a.rows + 1, false)
    case Rune(_) =>
      var b := if a.pending then Tally(0, a.rows + 1, false) else a;
      Tally(b.col + 1, b.rows, b.pending || (width > 0 && b.col + 1 >= width))
    case _ => a
  }

  /** The tally after a token stream. */
  function Account(width: int, a: Tally, ts: seq<Token>): (r: Tally)
    decreases |ts|
  {
    if ts == [] then a else Account(width, Charge(width, a, ts[0]), ts[1..])
  }

  /** The bytes a decoder consumes for the rune at the front: one where the encoding is invalid. */
  function DecodedSize(s: seq<byte>): (n: nat) {
    if RuneSize(s) == 0 then 1 else RuneSize(s)
  }

  /** The tally once everything from byte `i` on is charged too. */
  ghost function Total(width: int, a: Tally, s: seq<byte>, i: nat): (z: Tally)
    requires i <= |s|
  {
    Account(width, a, Tokens(s[i..]))
  }

  /** One step of the scan: the token at byte `i` is charged and the count goes on behind it. */
  lemma ScanToken(width: int, a: Tally, s: seq<byte>, i: nat, t: Token, n: nat)
    requires i < |s| && Lex(s[i..]) == (t, n)
    ensures i + n <= |s| && Total(width, Charge(width, a, t), s, i + n) == Total(width, a, s, i)
  {
    var ts := Tokens(s[i..]);
    assert s[i..][n..] == s[i + n..];
    assert ts[0] == t && ts[1..] == Tokens(s[i + n..]);
  }

  lemma ScanCsi(width: int, a: Tally, s: seq<byte>, i: nat, j: nat)
    requires i + 2 <= j <= |s| && s[i] == ESC && s[i + 1] == BRACKET
    requires forall k | i + 2 <= k < j :: !FinalByte(s[k])
    requires j < |s| ==> FinalByte(s[j])
    ensures Total(width, a, s, i) == if j < |s| then Total(width, a, s, j + 1) else a
  {
    var u := s[i..];
    assert u[0] == ESC && u[1] == BRACKET;
    var f := FinalIndex(u, 2);
    assert forall k | 0 <= k < |u| :: u[k] == s[i + k];
    assert j < |s| ==> u[j - i] == s[j];
    assert f == j - i;
    var (t, n) := Lex(u);
    ScanToken(width, a, s, i, t, n);
  }

  lemma ScanNewline(width: int, a: Tally, s: seq<byte>, i: nat)
    requires i < |s| && s[i] == NL
    ensures Total(width, a, s, i) == Total(width, Tally(0, a.rows + 1, false), s, i + 1)
  {
    ScanToken(width, a, s, i, Newline, 1);
  }

  lemma ScanRune(width: int, a: Tally, s: seq<byte>, i: nat)
    requires i < |s| && s[i] != NL && !(s[i] == ESC && i + 1 < |s| && s[i + 1] == BRACKET)
    ensures i + DecodedSize(s[i..]) <= |s|
    ensures Total(width, a, s, i) == Total(width, Charge(width, a, Rune([])), s, i + DecodedSize(s[i..]))
  {
    ScanToken(width, a, s, i, Lex(s[i..]).0, DecodedSize(s[i..]));
  }

  /** The inner scan for the final byte of a control sequence. */
  method FindFinal(s: seq<byte>, from: nat) returns (j: nat)
    requires from <= |s|
    ensures from <= j <= |s|
    ensures forall k | from <= k < j :: !FinalByte(s[k])
    ensures j < |s| ==> FinalByte(s[j])
  {
    j := from;
    while j < |s| && !FinalByte(s[j])
      invariant from <= j <= |s|
      invariant forall k | from <= k < j :: !FinalByte(s[k])
    {
      j := j + 1;
    }
  }

  /** One visible character: resolve a pending wrap first, then park at the last column. */
  method PlaceRune(width: int, a: Tally) returns (r: Tally)
    ensures r == Charge(width, a, Rune([]))
  {
    r := a;
    if r.pending {
      r := Tally(0, r.rows + 1, false);
    }
    r := r.(col := r.col + 1);
    if width > 0 && r.col >= width {
      r := r.(pending := true);
    }
  }

  /** The row counter's scan over the bytes of one write. */
  method AdvanceRows(col: int, width: int, pendingWrap: bool, s: seq<byte>) returns (a: Tally)
    ensures a == Account(width, Tally(col, 0, pendingWrap), Tokens(s))
  {
    a := Tally(col, 0, pendingWrap);
    ghost var goal := Total(width, a, s, 0);
    assert s[0..] == s;
    var i := 0;
    while i < |s|
      invariant 0 <= i <= |s|
      invariant Total(width, a, s, i) == goal
    {
      if s[i] == NL {
        ScanNewline(width, a, s, i);
        a, i := Tally(0, a.rows + 1, false), i + 1;
      } else if s[i] == ESC && i + 1 < |s| && s[i + 1] == BRACKET {
        var j := FindFinal(s, i + 2);
        ScanCsi(width, a, s, i, j);
        if j >= |s| {
          return;
        }
        i := j + 1;
      } else {
        ScanRune(width, a, s, i);
        a := PlaceRune(width, a);
        i := i + DecodedSize(s[i..]);
      }
    }
  }

  // ---------------------------------------------------------------------------------------
  // Splitting a write
  // ---------------------------------------------------------------------------------------

  lemma {:induction false} AccountConcat(width: int, a: Tally, ts: seq<Token>, us: seq<Token>)
    ensures Account(width, a, ts + us) == Account(width, Account(width, a, ts), us)
    decreases |ts|
  {
    if ts == [] {
      assert ts + us == us;
    } else {
      assert (ts + us)[1..] == ts[1..] + us;
      AccountConcat(width, Charge(width, a, ts[0]), ts[1..], us);
    }
  }

  /** A run of the counter can be started from any row total. */
  lemma {:induction false} AccountFromZero(width: int, a: Tally, ts: seq<Token>)
    ensures var z := Account(width, a.(rows := 0), ts);
            Account(width, a, ts) == z.(rows := a.rows + z.rows)
    decreases |ts|
  {
    if ts != [] {
      var a1 := Charge(width, a, ts[0]);
      var z1 := Charge(width, a.(rows := 0), ts[0]);
      AccountFromZero(width, a1, ts[1..]);
      AccountFromZero(width, z1, ts[1..]);
    }
  }

  /** Two writes split at a token boundary count like the one write of all their bytes. */
  lemma SplitAtTokenBoundary(width: int, a: Tally, ts: seq<Token>, us: seq<Token>)
    requires AllComplete(ts) && AllComplete(us)
    ensures Account(width, a, Tokens(Encode(ts) + Encode(us)))
         == Account(width, Account(width, a, Tokens(Encode(ts))), Tokens(Encode(us)))
  {
    EncodeConcat(ts, us);
    TokensOfEncode(ts);
    TokensOfEncode(us);
    TokensOfEncode(ts + us);
    AccountConcat(width, a, ts, us);
  }

  // ---------------------------------------------------------------------------------------
  // Refinement of the terminal
  // ---------------------------------------------------------------------------------------

  /** The tally and the terminal agree on column and pending wrap: while a wrap is pending the
      counter parks at `width`, one past the terminal's last column. */
  predicate Agrees(a: Tally, s: Screen) {
    && a.pending == s.cur.pending
    && a.col == (if s.cur.pending then s.width else s.cur.col)
  }

  /** Tokens that leave the row to the text. */
  predicate Still(t: Token) {
    Inky(t) || (t.Csi? && t.final == EL)
  }

  predicate Mover(t: Token) {
    t.Csi? && (t.final == CUU || t.final == CUD)
  }

  /** Rows that cursor motion climbs, net. */
  function Climb(ts: seq<Token>): (n: int) {
    if ts == [] then 0
    else
      var rest := Climb(ts[1..]);
      if !Mover(ts[0]) then rest
      else if ts[0].final == CUU then MoveCount(ts[0].params) + rest
      else rest - MoveCount(ts[0].params)
  }

  /** Every cursor motion of `ts` starts with no wrap pending and stays inside the viewport. */
  predicate Roomy(s: Screen, ts: seq<Token>)
    decreases |ts|
  {
    ts == [] ||
    (&& (Still(ts[0]) || Mover(ts[0]))
     && (Mover(ts[0]) ==>
           && !s.cur.pending
           && (ts[0].final == CUU ==> s.top <= s.cur.row - MoveCount(ts[0].params))
           && (ts[0].final == CUD ==> s.cur.row + MoveCount(ts[0].params) < s.top + s.height))
     && Roomy(Step(s, ts[0]), ts[1..]))
  }

  /** The counter and the terminal stay in step on column and pending wrap, and their row counts
      differ by the net climb. */
  lemma {:induction false} CountIsOffByClimb(s: Screen, a: Tally, ts: seq<Token>)
    requires s.Valid() && Agrees(a, s) && Roomy(s, ts)
    ensures var z := Account(s.width, a, ts);
            && Agrees(z, Feed(s, ts))
            && z.rows - a.rows == Feed(s, ts).cur.row - s.cur.row + Climb(ts)
    decreases |ts|
  {
    if ts != [] {
      var t := ts[0];
      var s1, a1 := Step(s, t), Charge(s.width, a, t);
      assert s1.Valid() && Agrees(a1, s1);
      CountIsOffByClimb(s1, a1, ts[1..]);
    }
  }

  lemma {:induction false} StillIsRoomy(s: Screen, ts: seq<Token>)
    requires forall i | 0 <= i < |ts| :: Still(ts[i])
    ensures Roomy(s, ts) && Climb(ts) == 0
    decreases |ts|
  {
    if ts != [] {
      StillIsRoomy(Step(s, ts[0]), ts[1..]);
    }
  }

  /** On text the counter refines the terminal: same row advance, column and pending wrap. */
  lemma CountRefinesTerminal(s: Screen, a: Tally, ts: seq<Token>)
    requires s.Valid() && Agrees(a, s)
    requires forall i | 0 <= i < |ts| :: Still(ts[i])
    ensures var z := Account(s.width, a, ts);
            && Agrees(z, Feed(s, ts))
            && z.rows - a.rows == Feed(s, ts).cur.row - s.cur.row
  {
    StillIsRoomy(s, ts);
    CountIsOffByClimb(s, a, ts);
  }

  /** With cursor motion in the stream the row count is right exactly when the climbs cancel. */
  lemma CountRightIffNoNetClimb(s: Screen, a: Tally, ts: seq<Token>)
    requires s.Valid() && Agrees(a, s) && Roomy(s, ts)
    ensures Account(s.width, a, ts).rows - a.rows == Feed(s, ts).cur.row - s.cur.row <==> Climb(ts) == 0
  {
    CountIsOffByClimb(s, a, ts);
  }

  // ---------------------------------------------------------------------------------------
  // Geometry of one line
  // ---------------------------------------------------------------------------------------

  /** The number of visible characters in a stream of one line. */
  function Visible(ts: seq<Token>): (n: nat) {
    if ts == [] then 0 else (if ts[0].Rune? then 1 else 0) + Visible(ts[1..])
  }

  /** Rows a line of `k` characters takes, its newline included: max(1, ceil(k / width)), and one where
      the width is unknown. */
  function LineRows(k: nat, width: int): (r: nat)
    ensures r >= 1
    ensures k <= width ==> r == 1
  {
    if k <= width || width <= 0 then 1
    else
      DivAtLeastOne(k + width - 1, width);
      (k + width - 1) / width
  }

  /** Where `k` characters typed from column 0 leave the counter. */
  function After(k: nat, width: int): (r: Tally) {
    if width <= 0 then Tally(k, 0, false)
    else if k == 0 then Tally(0, 0, false)
    else if k % width == 0 then Tally(width, k / width - 1, true)
    else Tally(k % width, k / width, false)
  }

  lemma AfterNext(k: nat, width: int, t: Token)
    requires t.Rune?
    ensures Charge(width, After(k, width), t) == After(k + 1, width)
  {
    if width > 0 {
      var q, r := k / width, k % width;
      assert k == q * width + r;
      assert (q + 1) * width == q * width + width;
      if r + 1 == width {
        DivModUnique(k + 1, width, q + 1, 0);
      } else {
        DivModUnique(k + 1, width, q, r + 1);
      }
    }
  }

  /** A stretch without line end. */
  predicate Unbroken(ts: seq<Token>) {
    forall i | 0 <= i < |ts| :: !ts[i].Newline?
  }

  lemma {:induction false} AfterLine(k: nat, width: int, ts: seq<Token>)
    requires Unbroken(ts)
    ensures Account(width, After(k, width), ts) == After(k + Visible(ts), width)
    decreases |ts|
  {
    if ts != [] {
      if ts[0].Rune? {
        AfterNext(k, width, ts[0]);
        AfterLine(k + 1, width, ts[1..]);
      } else {
        AfterLine(k, width, ts[1..]);
      }
    }
  }

  lemma CeilingOfLine(k: nat, width: int)
    ensures After(k, width).rows + 1 == LineRows(k, width)
  {
    if k > 0 && width > 0 {
      var q, r := k / width, k % width;
      assert k == q * width + r;
      assert (q + 1) * width == q * width + width;
      if r == 0 {
        DivModUnique(k + width - 1, width, q, width - 1);
      } else {
        DivModUnique(k + width - 1, width, q + 1, r - 1);
      }
      if k <= width {
        DivModUnique(k + width - 1, width, 1, k - 1);
      }
    }
  }

  /** A tally some stream can leave: the counter parks at `width` exactly while a wrap is pending. */
  predicate Sane(width: int, a: Tally) {
    0 <= a.col && if width > 0 then a.col <= width && (a.pending <==> a.col == width) else !a.pending
  }

  lemma SaneIsAfter(width: int, a: Tally)
    requires Sane(width, a)
    ensures a == After(a.col, width).(rows := a.rows)
  {
    if width > 0 {
      if a.col == width {
        DivModUnique(a.col, width, 1, 0);
      } else {
        DivModUnique(a.col, width, 0, a.col);
      }
    }
  }

  lemma {:induction false} SaneKept(width: int, a: Tally, ts: seq<Token>)
    requires Sane(width, a)
    ensures Sane(width, Account(width, a, ts))
    decreases |ts|
  {
    if ts != [] {
      SaneKept(width, Charge(width, a, ts[0]), ts[1..]);
    }
  }

  /** A stretch of `k` characters from any column leaves the counter where `col + k` from column 0
      would, so many rows further down. */
  lemma StretchFrom(width: int, a: Tally, ts: seq<Token>)
    requires Sane(width, a) && Unbroken(ts)
    ensures var z := After(a.col + Visible(ts), width); Account(width, a, ts) == z.(rows := a.rows + z.rows)
  {
    SaneIsAfter(width, a);
    AfterLine(a.col, width, ts);
    AccountFromZero(width, a, ts);
    AccountFromZero(width, After(a.col, width), ts);
    FirstRow(a.col, width);
  }

  /** Up to the width, characters stay on the first row. */
  lemma FirstRow(k: nat, width: int)
    requires width > 0 ==> k <= width
    ensures After(k, width).rows == 0
  {
    if 0 < k < width {
      DivModUnique(k, width, 0, k);
    } else if k == width && width > 0 {
      DivModUnique(k, width, 1, 0);
    }
  }

  /** The rest of a line and its newline, from any column. */
  lemma LineFrom(width: int, a: Tally, line: seq<Token>)
    requires Sane(width, a) && Unbroken(line)
    ensures Account(width, a, line + [Newline]) == Tally(0, a.rows + LineRows(a.col + Visible(line), width), false)
  {
    StretchFrom(width, a, line);
    CeilingOfLine(a.col + Visible(line), width);
    AccountConcat(width, a, line, [Newline]);
  }

  /** A line of `k` characters from column 0, styled or not, takes max(1, ceil(k / width)) rows
      with its newline, and leaves the counter at column 0. */
  lemma LineTakesItsRows(width: int, line: seq<Token>)
    requires Unbroken(line)
    ensures Account(width, Tally(0, 0, false), line + [Newline]) == Tally(0, LineRows(Visible(line), width), false)
  {
    LineFrom(width, Tally(0, 0, false), line);
  }

  /** With the width unknown only newlines count. */
  lemma {:induction false} UnknownWidthCountsNewlines(width: int, a: Tally, ts: seq<Token>)
    requires width <= 0 && !a.pending
    ensures Account(width, a, ts).rows == a.rows + |Lines(ts)| && !Account(width, a, ts).pending
    decreases |ts|
  {
    if ts != [] {
      UnknownWidthCountsNewlines(width, Charge(width, a, ts[0]), ts[1..]);
    }
  }

  /** The newlines of a stream. */
  function Lines(ts: seq<Token>): (r: seq<Token>) {
    if ts == [] then [] else (if ts[0].Newline? then [ts[0]] else []) + Lines(ts[1..])
  }

  // ---------------------------------------------------------------------------------------
  // Characters the counter does not see
  // ---------------------------------------------------------------------------------------

  /** `k` one-cell characters. */
  function Chars(k: nat): (ts: seq<Token>)
    ensures |ts| == k
  {
    seq(k, i => Rune(BLANK))
  }

  lemma {:induction false} VisibleChars(k: nat)
    ensures Visible(Chars(k)) == k
  {
    if k > 0 {
      assert Chars(k)[1..] == Chars(k - 1);
      VisibleChars(k - 1);
    }
  }

  /** The index of the first newline, or the length. */
  function FirstNewline(ts: seq<Token>): (i: nat)
    ensures i <= |ts| && Unbroken(ts[..i])
    ensures i < |ts| ==> ts[i].Newline?
  {
    if ts == [] || ts[0].Newline? then 0
    else
      var i := FirstNewline(ts[1..]);
      assert forall k | 0 < k <= i :: ts[k] == ts[1..][k - 1];
      i + 1
  }

  /** The counter tells positions on a line apart. */
  lemma AfterInjective(j: nat, k: nat, width: int)
    requires After(j, width) == After(k, width)
    ensures j == k
  {
    if width > 0 {
      assert j == (j / width) * width + j % width && k == (k / width) * width + k % width;
    }
  }

  lemma LineInTwo(w: int, b: Tally, first: seq<Token>, line: seq<Token>, k: nat)
    requires Sane(w, b) && Unbroken(first) && Unbroken(line) && k == b.col + Visible(first) + Visible(line)
    ensures Account(w, Account(w, b, first), line + [Newline]) == Tally(0, b.rows + LineRows(k, w), false)
  {
    VisibleConcat(first, line);
    AccountInTwo(w, b, first, line, [Newline]);
    WholeLine(w, b, first + line, k);
  }

  lemma WholeLine(w: int, b: Tally, line: seq<Token>, k: nat)
    requires Sane(w, b) && Unbroken(line) && k == b.col + Visible(line)
    ensures Account(w, b, line + [Newline]) == Tally(0, b.rows + LineRows(k, w), false)
  {
    LineFrom(w, b, line);
  }

  lemma AccountInTwo(w: int, b: Tally, x: seq<Token>, y: seq<Token>, z: seq<Token>)
    ensures Account(w, Account(w, b, x), y + z) == Account(w, b, x + y + z)
  {
    AccountConcat(w, b, x, y + z);
    assert x + (y + z) == x + y + z;
  }

  lemma ShiftedLine(width: int, b: Tally, e: nat, line: seq<Token>, rest: seq<Token>, vs: seq<Token>)
    requires Sane(width, b) && Unbroken(line) && vs == line + [Newline] + rest
    ensures Account(width, b, Chars(e) + vs) == Account(width, b, vs)
       <==> LineRows(b.col + Visible(line) + e, width) == LineRows(b.col + Visible(line), width)
  {
    var near, far := Account(width, b, line + [Newline]), Account(width, Account(width, b, Chars(e)), line + [Newline]);
    VisibleChars(e);
    WholeLine(width, b, line, b.col + Visible(line));
    LineInTwo(width, b, Chars(e), line, b.col + Visible(line) + e);
    AccountConcat(width, b, line + [Newline], rest);
    AccountConcat(width, b, Chars(e), vs);
    AccountConcat(width, Account(width, b, Chars(e)), line + [Newline], rest);
    RowsAreKept(width, near, far, rest);
  }

  /** Behind a line end, counts that differ stay different. */
  lemma RowsAreKept(width: int, a: Tally, b: Tally, ts: seq<Token>)
    requires a.(rows := 0) == b.(rows := 0)
    ensures Account(width, a, ts) == Account(width, b, ts) <==> a.rows == b.rows
  {
    AccountFromZero(width, a, ts);
    AccountFromZero(width, b, ts);
  }

  lemma ShiftedStretch(width: int, b: Tally, e: nat, line: seq<Token>)
    requires Sane(width, b) && Unbroken(line) && e >= 1
    ensures Account(width, b, Chars(e) + line) != Account(width, b, line)
  {
    VisibleChars(e);
    VisibleConcat(Chars(e), line);
    StretchFrom(width, b, line);
    StretchFrom(width, b, Chars(e) + line);
    var j, k := b.col + Visible(line), b.col + Visible(Chars(e) + line);
    if After(j, width) == After(k, width) {
      AfterInjective(j, k, width);
    }
  }

  /** The first line of a stream ends, and takes as many rows from `e` characters further right. */
  predicate Absorbs(width: int, col: int, e: nat, vs: seq<Token>) {
    var i := FirstNewline(vs);
    var k := col + Visible(vs[..i]);
    col >= 0 && i < |vs| && LineRows(k + e, width) == LineRows(k, width)
  }

  /** Where a stream is met `e` characters further right, it counts the same if and only if it holds
      a newline and its first line takes the same rows from there. */
  lemma ShiftedCountIff(width: int, b: Tally, e: nat, vs: seq<Token>)
    requires Sane(width, b) && e >= 1
    ensures Account(width, b, Chars(e) + vs) == Account(width, b, vs) <==> Absorbs(width, b.col, e, vs)
  {
    var i := FirstNewline(vs);
    if i < |vs| {
      CutAtNewline(vs, i);
      ShiftedLine(width, b, e, vs[..i], vs[i + 1..], vs);
    } else {
      assert vs[..i] == vs;
      ShiftedStretch(width, b, e, vs);
    }
  }

  lemma CutAtNewline(vs: seq<Token>, i: nat)
    requires i < |vs| && vs[i].Newline?
    ensures vs == vs[..i] + [Newline] + vs[i + 1..]
  {
  }

  lemma {:induction false} VisibleConcat(ts: seq<Token>, us: seq<Token>)
    ensures Visible(ts + us) == Visible(ts) + Visible(us)
  {
    if ts == [] {
      assert ts + us == us;
    } else {
      assert (ts + us)[1..] == ts[1..] + us;
      VisibleConcat(ts[1..], us);
    }
  }
}
