/**
 The animated banner's frames: split from one file, checked to be of one size, cropped to the
 window their ink shares, and freed of repeats.

 A row is a sequence of one-cell runes.
 */
module BannerFrames {

  type Row = string
  type Frame = seq<Row>

  datatype Result = Frames(frames: seq<Frame>) | Refused

  const SEPARATOR: string := "%%"

  // ---------------------------------------------------------------------------------------
  // Splitting
  // ---------------------------------------------------------------------------------------

  /** `strings.Split(s, "\n")`. */
  function Split(s: string): (lines: seq<string>)
    ensures lines != []
  {
    if s == "" then [""]
    else
      var more := Split(s[1..]);
      if s[0] == '\n' then [""] + more else [[s[0]] + more[0]] + more[1..]
  }

  /** The lines of a frames file, without the empty one behind a final newline. */
  function Lines(raw: string): (lines: seq<string>) {
    var lines := Split(raw);
    if lines[|lines| - 1] == "" then lines[..|lines| - 1] else lines
  }

  /** Frames written one behind the other, a separator line between two. */
  function Joined<T>(frames: seq<seq<T>>, sep: T): (lines: seq<T>)
    requires frames != []
  {
    if |frames| == 1 then frames[0]
    else Joined(frames[..|frames| - 1], sep) + ([sep] + frames[|frames| - 1])
  }

  predicate Without<T(==)>(f: seq<T>, sep: T) {
    sep !in f
  }

  predicate AllWithout<T(==)>(frames: seq<seq<T>>, sep: T) {
    forall f | 0 <= f < |frames| :: Without(frames[f], sep)
  }

  /** The frames that `lines` hold. */
  function Groups<T(==)>(lines: seq<T>, sep: T): (frames: seq<seq<T>>)
    ensures frames != []
  {
    if lines == [] then [[]]
    else
      var n := |lines| - 1;
      var before := Groups(lines[..n], sep);
      var last := |before| - 1;
      if lines[n] == sep then before + [[]] else before[..last] + [before[last] + [lines[n]]]
  }

  /** One more line: the last frame ends, or grows by a row. */
  lemma GroupsNext<T>(lines: seq<T>, sep: T, frames: seq<seq<T>>, current: seq<T>, line: T)
    requires Groups(lines, sep) == frames + [current]
    ensures line == sep ==> Groups(lines + [line], sep) == frames + [current] + [[]]
    ensures line != sep ==> Groups(lines + [line], sep) == frames + [current + [line]]
  {
    assert (lines + [line])[..|lines|] == lines;
    assert (frames + [current])[..|frames|] == frames;
  }

  lemma JoinedSnoc<T>(frames: seq<seq<T>>, last: seq<T>, sep: T)
    requires frames != []
    ensures Joined(frames + [last], sep) == Joined(frames, sep) + ([sep] + last)
  {
    assert (frames + [last])[..|frames|] == frames;
  }

  lemma JoinedGrows<T>(frames: seq<seq<T>>, last: seq<T>, line: T, sep: T)
    ensures Joined(frames + [last + [line]], sep) == Joined(frames + [last], sep) + [line]
  {
    if frames != [] {
      JoinedSnoc(frames, last, sep);
      JoinedSnoc(frames, last + [line], sep);
    }
  }

  /** Writing one behind the other is the inverse of splitting... */
  lemma {:induction false} JoinedGroups<T>(lines: seq<T>, sep: T)
    ensures AllWithout(Groups(lines, sep), sep)
    ensures Joined(Groups(lines, sep), sep) == lines
    decreases |lines|
  {
    if lines != [] {
      var n := |lines| - 1;
      var before := Groups(lines[..n], sep);
      var frames, current := before[..|before| - 1], before[|before| - 1];
      JoinedGroups(lines[..n], sep);
      assert before == frames + [current] && lines == lines[..n] + [lines[n]];
      GroupsNext(lines[..n], sep, frames, current, lines[n]);
      JoinedSnoc(before, [], sep);
      JoinedGrows(frames, current, lines[n], sep);
    }
  }

  lemma LastBehind<T>(a: seq<T>, f: seq<T>)
    requires f != []
    ensures a + f[..|f| - 1] + [f[|f| - 1]] == a + f
  {
  }

  lemma {:induction false} GroupsBehind<T>(lines: seq<T>, sep: T, frames: seq<seq<T>>, f: seq<T>)
    requires Without(f, sep)
    requires Groups(lines, sep) == frames + [[]]
    ensures Groups(lines + f, sep) == frames + [f]
    decreases |f|
  {
    if f == [] {
      assert lines + f == lines;
    } else {
      var n := |f| - 1;
      var front := f[..n];
      GroupsBehind(lines, sep, frames, front);
      GroupsNext(lines + front, sep, frames, front, f[n]);
      LastBehind(lines, f);
      LastBehind([], f);
      assert [] + front == front && [] + f == f;
    }
  }

  lemma GroupsSnoc<T>(lines: seq<T>, sep: T, frames: seq<seq<T>>, last: seq<T>)
    requires Groups(lines, sep) == frames && Without(last, sep)
    ensures Groups(lines + ([sep] + last), sep) == frames + [last]
  {
    var n := |frames| - 1;
    assert frames == frames[..n] + [frames[n]];
    GroupsNext(lines, sep, frames[..n], frames[n], sep);
    GroupsBehind(lines + [sep], sep, frames, last);
    assert lines + ([sep] + last) == lines + [sep] + last;
  }

  lemma GroupsOne<T>(f: seq<T>, sep: T)
    requires Without(f, sep)
    ensures Groups(f, sep) == [f]
  {
    assert Groups([], sep) == [] + [[]];
    GroupsBehind([], sep, [], f);
    assert [] + f == f && [] + [f] == [f];
  }

  /** ...and splitting that of writing. */
  lemma {:induction false} GroupsOfJoined<T>(frames: seq<seq<T>>, sep: T)
    requires frames != [] && AllWithout(frames, sep)
    ensures Groups(Joined(frames, sep), sep) == frames
    decreases |frames|
  {
    var n := |frames| - 1;
    var before, last := frames[..n], frames[n];
    assert Without(last, sep);
    assert frames == before + [last];
    if n == 0 {
      GroupsOne(last, sep);
    } else {
      GroupsOfJoined(before, sep);
      GroupsSnoc(Joined(before, sep), sep, before, last);
      JoinedSnoc(before, last, sep);
    }
  }

  /** Every line ended by a newline. */
  function Unlines(lines: seq<string>): (s: string) {
    if lines == [] then "" else lines[0] + ("\n" + Unlines(lines[1..]))
  }

  lemma {:induction false} SplitLine(line: string, rest: string)
    requires '\n' !in line
    ensures Split(line + ("\n" + rest)) == [line] + Split(rest)
    decreases |line|
  {
    var s := line + ("\n" + rest);
    if line == "" {
      assert s[1..] == rest;
    } else {
      assert s[1..] == line[1..] + ("\n" + rest);
      SplitLine(line[1..], rest);
      assert [line[0]] + line[1..] == line;
    }
  }

  lemma {:induction false} SplitUnlines(lines: seq<string>)
    requires forall i | 0 <= i < |lines| :: '\n' !in lines[i]
    ensures Split(Unlines(lines)) == lines + [""]
    decreases |lines|
  {
    if lines != [] {
      SplitLine(lines[0], Unlines(lines[1..]));
      SplitUnlines(lines[1..]);
      assert [lines[0]] + (lines[1..] + [""]) == lines + [""];
    }
  }

  /** A file written from frames is split into those frames. */
  lemma FileRoundTrip(frames: seq<Frame>)
    requires frames != [] && AllWithout(frames, SEPARATOR)
    requires forall i | 0 <= i < |Joined(frames, SEPARATOR)| :: '\n' !in Joined(frames, SEPARATOR)[i]
    ensures Groups(Lines(Unlines(Joined(frames, SEPARATOR))), SEPARATOR) == frames
  {
    var lines := Joined(frames, SEPARATOR);
    SplitUnlines(lines);
    assert (lines + [""])[..|lines|] == lines;
    GroupsOfJoined(frames, SEPARATOR);
  }

  predicate OfSize(f: Frame, height: nat, width: nat) {
    |f| == height && forall i | 0 <= i < |f| :: |f[i]| == width
  }

  predicate Uniform(frames: seq<Frame>, height: nat, width: nat) {
    forall f | 0 <= f < |frames| :: OfSize(frames[f], height, width)
  }

  /** All frames of one size: that of the first. */
  predicate OneSize(frames: seq<Frame>) {
    frames == [] || Uniform(frames, |frames[0]|, if frames[0] == [] then 0 else |frames[0][0]|)
  }

  lemma OneSizeIffUniform(frames: seq<Frame>)
    ensures OneSize(frames) <==> exists h: nat, w: nat :: Uniform(frames, h, w)
  {
    forall h: nat, w: nat | Uniform(frames, h, w) ensures OneSize(frames) {
      if frames != [] {
        assert OfSize(frames[0], h, w);
        forall f | 0 <= f < |frames|
          ensures OfSize(frames[f], |frames[0]|, if frames[0] == [] then 0 else |frames[0][0]|)
        {
          assert OfSize(frames[f], h, w);
        }
      }
    }
    if frames == [] {
      assert Uniform(frames, 0, 0);
    }
  }

  method SplitFrames<T(==)>(lines: seq<T>, sep: T) returns (frames: seq<seq<T>>)
    ensures frames == Groups(lines, sep)
  {
    frames := [];
    var current: seq<T> := [];
    ghost var seen: seq<T> := [];
    for i := 0 to |lines|
      invariant seen == lines[..i]
      invariant Groups(seen, sep) == frames + [current]
    {
      GroupsNext(seen, sep, frames, current, lines[i]);
      seen := seen + [lines[i]];
      if lines[i] == sep {
        frames := frames + [current];
        current := [];
      } else {
        current := current + [lines[i]];
      }
    }
    assert seen == lines;
    frames := frames + [current];
  }

  method CheckSizes(frames: seq<Frame>) returns (ok: bool)
    requires frames != []
    ensures ok <==> OneSize(frames)
  {
    var wantRows := |frames[0]|;
    var wantCols := -1;
    ghost var w: nat := if frames[0] == [] then 0 else |frames[0][0]|;
    for i := 0 to |frames|
      invariant forall f | 0 <= f < i :: OfSize(frames[f], wantRows, w)
      invariant wantCols == if i == 0 || wantRows == 0 then -1 else w
    {
      if |frames[i]| != wantRows {
        assert !OfSize(frames[i], wantRows, w);
        return false;
      }
      for j := 0 to |frames[i]|
        invariant forall k | 0 <= k < j :: |frames[i][k]| == w
        invariant wantCols == if (i == 0 && j == 0) || wantRows == 0 then -1 else w
      {
        var cols := |frames[i][j]|;
        if wantCols == -1 {
          wantCols := cols;
          continue;
        }
        if cols != wantCols {
          assert !OfSize(frames[i], wantRows, w);
          return false;
        }
      }
    }
    return true;
  }

  /** `splitAndValidateBannerFrames`: the frames the file holds, if there are two or more and all of
      one size. */
  method SplitAndValidate(raw: string) returns (r: Result)
    ensures var all := Groups(Lines(raw), SEPARATOR); r == if |all| >= 2 && OneSize(all) then Frames(all) else Refused
  {
    var lines := Split(raw);
    if lines[|lines| - 1] == "" {
      lines := lines[..|lines| - 1];
    }
    var frames := SplitFrames(lines, SEPARATOR);
    if |frames| < 2 {
      return Refused;
    }
    var ok := CheckSizes(frames);
    return if ok then Frames(frames) else Refused;
  }

  // ---------------------------------------------------------------------------------------
  // The window the ink shares
  // ---------------------------------------------------------------------------------------

  const BLANK: char := ' '

  /** A cell position, counted from the canvas's top left corner. */
  datatype Cell = Cell(row: int, col: int)

  function RowInk(i: int, row: Row): (cells: set<Cell>) {
    set j | 0 <= j < |row| && row[j] != BLANK :: Cell(i, j)
  }

  function FrameInk(f: Frame): (cells: set<Cell>) {
    if f == [] then {} else FrameInk(f[..|f| - 1]) + RowInk(|f| - 1, f[|f| - 1])
  }

  /** Every position some frame has ink at. */
  function Ink(frames: seq<Frame>): (cells: set<Cell>) {
    if frames == [] then {} else Ink(frames[..|frames| - 1]) + FrameInk(frames[|frames| - 1])
  }

  predicate HasInk(f: Frame, c: Cell) {
    0 <= c.row < |f| && 0 <= c.col < |f[c.row]| && f[c.row][c.col] != BLANK
  }

  lemma {:induction false} FrameInkIs(f: Frame, c: Cell)
    ensures c in FrameInk(f) <==> HasInk(f, c)
    decreases |f|
  {
    if f != [] {
      FrameInkIs(f[..|f| - 1], c);
    }
  }

  lemma {:induction false} InkIs(frames: seq<Frame>, c: Cell)
    ensures c in Ink(frames) <==> exists f :: 0 <= f < |frames| && HasInk(frames[f], c)
    decreases |frames|
  {
    if frames != [] {
      var n := |frames| - 1;
      InkIs(frames[..n], c);
      FrameInkIs(frames[n], c);
      if c in Ink(frames[..n]) {
        var f :| 0 <= f < n && HasInk(frames[..n][f], c);
        assert HasInk(frames[f], c);
      }
      forall f | 0 <= f < |frames| && HasInk(frames[f], c) ensures c in Ink(frames) {
        if f < n {
          assert HasInk(frames[..n][f], c);
        }
      }
    }
  }

  /** The bounds of the content, each -1 while there is none. */
  datatype Window = Window(rowFirst: int, rowLast: int, colFirst: int, colLast: int)

  predicate Inside(c: Cell, w: Window) {
    w.rowFirst <= c.row <= w.rowLast && w.colFirst <= c.col <= w.colLast
  }

  /** `w` encloses `cells`, and every one of its four edges is touched. */
  ghost predicate Encloses(w: Window, cells: set<Cell>) {
    if cells == {} then w == Window(-1, -1, -1, -1)
    else
      && (forall c | c in cells :: Inside(c, w))
      && (exists c :: c in cells && c.row == w.rowFirst)
      && (exists c :: c in cells && c.row == w.rowLast)
      && (exists c :: c in cells && c.col == w.colFirst)
      && (exists c :: c in cells && c.col == w.colLast)
  }

  /** The window after row `i`, whose ink runs from `left` to `right`. */
  function Widened(w: Window, i: int, left: int, right: int): (r: Window) {
    Window(if w.rowFirst == -1 || i < w.rowFirst then i else w.rowFirst,
           if i > w.rowLast then i else w.rowLast,
           if w.colFirst == -1 || left < w.colFirst then left else w.colFirst,
           if right > w.colLast then right else w.colLast)
  }

  ghost predicate NonNegative(cells: set<Cell>) {
    forall c | c in cells :: 0 <= c.row && 0 <= c.col
  }

  /** One more row of ink, whose own ends are `left` and `right`. */
  lemma WidenedEncloses(w: Window, cells: set<Cell>, more: set<Cell>, i: int, left: int, right: int)
    requires Encloses(w, cells) && NonNegative(cells) && NonNegative(more)
    requires forall c | c in more :: c.row == i && left <= c.col <= right
    requires Cell(i, left) in more && Cell(i, right) in more
    ensures Encloses(Widened(w, i, left, right), cells + more)
  {
    var r := Widened(w, i, left, right);
    var all := cells + more;
    assert Cell(i, left) in all && Cell(i, right) in all;
    if cells != {} {
      var a :| a in cells && a.row == w.rowFirst;
      var b :| b in cells && b.row == w.rowLast;
      var c :| c in cells && c.col == w.colFirst;
      var d :| d in cells && d.col == w.colLast;
      assert a in all && b in all && c in all && d in all;
    }
  }

  /** The ends of a row's ink. */
  method RowEnds(row: Row) returns (left: int, right: int)
    ensures left == -1 <==> RowInk(0, row) == {}
    ensures left != -1 ==> 0 <= left <= right < |row| && row[left] != BLANK && row[right] != BLANK
    ensures left != -1 ==> forall j | 0 <= j < |row| && row[j] != BLANK :: left <= j <= right
  {
    left, right := -1, -1;
    for j := 0 to |row|
      invariant left == -1 ==> forall k | 0 <= k < j :: row[k] == BLANK
      invariant left != -1 ==> 0 <= left <= right < j && row[left] != BLANK && row[right] != BLANK
      invariant left != -1 ==> forall k | 0 <= k < j && row[k] != BLANK :: left <= k <= right
    {
      if row[j] == BLANK {
        continue;
      }
      if left == -1 {
        left := j;
      }
      right := j;
    }
    if left != -1 {
      assert Cell(0, left) in RowInk(0, row);
    }
  }

  lemma RowBounds(w: Window, cells: set<Cell>, i: nat, row: Row, left: int, right: int)
    requires Encloses(w, cells) && NonNegative(cells)
    requires left == -1 <==> RowInk(0, row) == {}
    requires left != -1 ==> 0 <= left <= right < |row| && row[left] != BLANK && row[right] != BLANK
    requires left != -1 ==> forall j | 0 <= j < |row| && row[j] != BLANK :: left <= j <= right
    ensures NonNegative(cells + RowInk(i, row))
    ensures Encloses(if left == -1 then w else Widened(w, i, left, right), cells + RowInk(i, row))
  {
    if left == -1 {
      assert forall j | 0 <= j < |row| :: row[j] != BLANK ==> Cell(0, j) in RowInk(0, row);
      assert RowInk(i, row) == {};
      assert cells + RowInk(i, row) == cells;
    } else {
      WidenedEncloses(w, cells, RowInk(i, row), i, left, right);
    }
  }

  lemma NextRowInk(before: set<Cell>, f: Frame, i: nat)
    requires i < |f|
    ensures before + FrameInk(f[..i + 1]) == before + FrameInk(f[..i]) + RowInk(i, f[i])
  {
    assert f[..i + 1][..i] == f[..i];
  }

  /** The window one row adds; a blank row contributes nothing. */
  method NoteRow(row: Row, i: nat, w: Window, ghost cells: set<Cell>) returns (r: Window)
    requires Encloses(w, cells) && NonNegative(cells)
    ensures Encloses(r, cells + RowInk(i, row)) && NonNegative(cells + RowInk(i, row))
  {
    var rowFirst, rowLast, colFirst, colLast := w.rowFirst, w.rowLast, w.colFirst, w.colLast;
    var left, right := RowEnds(row);
    RowBounds(w, cells, i, row, left, right);
    if left == -1 {
      return w;
    }
    if rowFirst == -1 || i < rowFirst {
      rowFirst := i;
    }
    if i > rowLast {
      rowLast := i;
    }
    if colFirst == -1 || left < colFirst {
      colFirst := left;
    }
    if right > colLast {
      colLast := right;
    }
    r := Window(rowFirst, rowLast, colFirst, colLast);
    assert r == Widened(w, i, left, right);
  }

  method ContentWindow(frames: seq<Frame>) returns (w: Window)
    ensures Encloses(w, Ink(frames))
  {
    w := Window(-1, -1, -1, -1);
    for k := 0 to |frames|
      invariant Encloses(w, Ink(frames[..k])) && NonNegative(Ink(frames[..k]))
    {
      ghost var before := Ink(frames[..k]);
      var f := frames[k];
      assert before + FrameInk(f[..0]) == before;
      for i := 0 to |f|
        invariant Encloses(w, before + FrameInk(f[..i])) && NonNegative(before + FrameInk(f[..i]))
      {
        w := NoteRow(f[i], i, w, before + FrameInk(f[..i]));
        NextRowInk(before, f, i);
      }
      NextFrameInk(frames, k);
    }
    assert frames[..|frames|] == frames;
  }

  lemma NextFrameInk(frames: seq<Frame>, k: nat)
    requires k < |frames|
    ensures Ink(frames[..k]) + FrameInk(frames[k][..|frames[k]|]) == Ink(frames[..k + 1])
  {
    assert frames[..k + 1][..k] == frames[..k];
    assert frames[k][..|frames[k]|] == frames[k];
  }

  /** Two frames of one row each, as they stand in a file. */
  lemma FileAtWork(a: char, b: char)
    requires a != '\n' && b != '\n'
    ensures Groups(Lines([a] + "\n%%\n" + [b] + "\n"), SEPARATOR) == [[[a]], [[b]]]
  {
    var frames := [[[a]], [[b]]];
    assert Joined(frames[..1], SEPARATOR) == [[a]];
    assert Joined(frames, SEPARATOR) == [[a], "%%", [b]];
    assert Unlines([[b]]) == [b] + "\n";
    assert Unlines(["%%", [b]]) == "%%\n" + Unlines([[b]]);
    assert Unlines([[a], "%%", [b]]) == [a] + "\n" + Unlines(["%%", [b]]);
    assert Unlines([[a], "%%", [b]]) == [a] + "\n%%\n" + [b] + "\n";
    FileRoundTrip(frames);
  }
}
