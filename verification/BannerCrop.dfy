/**
 Cropping the banner's frames to the window their ink shares, and dropping repeats: nothing a
 viewer could see is lost, and the order of the two does not matter.
 */
module BannerCrop {

  import opened Arithmetic
  import opened BannerFrames

  // ---------------------------------------------------------------------------------------
  // Cropping
  // ---------------------------------------------------------------------------------------

  /** `strings.TrimRight(s, " ")`. */
  function TrimRight(s: string): (r: string)
    ensures r <= s
    ensures forall j | |r| <= j < |s| :: s[j] == BLANK
    ensures r != "" ==> r[|r| - 1] != BLANK
  {
    if s == "" || s[|s| - 1] != BLANK then s else TrimRight(s[..|s| - 1])
  }

  function CropRow(row: Row, w: Window): (r: Row)
    requires 0 <= w.colFirst <= w.colLast
  {
    var end := Min(w.colLast + 1, |row|);
    TrimRight(row[Min(w.colFirst, end)..end])
  }

  /** A window that has something in it and ends above row `height`. */
  predicate Fits(w: Window, height: nat) {
    0 <= w.rowFirst <= w.rowLast < height && 0 <= w.colFirst <= w.colLast
  }

  function CropFrame(f: Frame, w: Window): (r: Frame)
    requires Fits(w, |f|)
    ensures |r| == w.rowLast + 1 - w.rowFirst
  {
    seq(w.rowLast + 1 - w.rowFirst, i requires 0 <= i < w.rowLast + 1 - w.rowFirst => CropRow(f[w.rowFirst + i], w))
  }

  predicate OfHeight(frames: seq<Frame>, height: nat) {
    forall f | 0 <= f < |frames| :: |frames[f]| == height
  }

  /** Every frame cropped to `w`; frames without any ink are left alone. */
  function Cropped(frames: seq<Frame>, w: Window, height: nat): (r: seq<Frame>)
    requires OfHeight(frames, height)
    requires w.rowFirst == -1 || Fits(w, height)
    ensures |r| == |frames|
    ensures forall f | 0 <= f < |r| :: r[f] == if w.rowFirst == -1 then frames[f] else CropFrame(frames[f], w)
  {
    if w.rowFirst == -1 then frames
    else seq(|frames|, f requires 0 <= f < |frames| => CropFrame(frames[f], w))
  }

  lemma EnclosingFits(frames: seq<Frame>, w: Window, height: nat)
    requires OfHeight(frames, height) && Encloses(w, Ink(frames))
    ensures w.rowFirst == -1 || Fits(w, height)
    ensures w.rowFirst == -1 <==> Ink(frames) == {}
  {
    if Ink(frames) != {} {
      var a :| a in Ink(frames) && a.row == w.rowFirst;
      var b :| b in Ink(frames) && b.row == w.rowLast;
      var c :| c in Ink(frames) && c.col == w.colFirst;
      InkIs(frames, a);
      InkIs(frames, b);
      InkIs(frames, c);
    }
  }

  /** `r` is `frames` cropped to the window their ink needs. */
  ghost predicate IsCrop(r: seq<Frame>, frames: seq<Frame>, height: nat) {
    OfHeight(frames, height) && exists w ::
      Encloses(w, Ink(frames)) && (w.rowFirst == -1 || Fits(w, height)) && r == Cropped(frames, w, height)
  }

  method CropOneRow(row: Row, w: Window) returns (r: Row)
    requires 0 <= w.colFirst <= w.colLast
    ensures r == CropRow(row, w)
  {
    var end := w.colLast + 1;
    if end > |row| {
      end := |row|;
    }
    var start := w.colFirst;
    if start > end {
      start := end;
    }
    r := TrimRight(row[start..end]);
  }

  method CropOneFrame(f: Frame, w: Window) returns (rows: Frame)
    requires Fits(w, |f|)
    ensures rows == CropFrame(f, w)
  {
    rows := [];
    for i := w.rowFirst to w.rowLast + 1
      invariant |rows| == i - w.rowFirst
      invariant rows == CropFrame(f, w)[..|rows|]
    {
      var row := CropOneRow(f[i], w);
      assert CropFrame(f, w)[|rows|] == row;
      rows := rows + [row];
    }
  }

  /** `cropBannerFramesToSharedContent`: one window for all frames, the one their ink needs. */
  method CropToSharedContent(frames: seq<Frame>, ghost height: nat) returns (r: seq<Frame>)
    requires OfHeight(frames, height)
    ensures IsCrop(r, frames, height)
  {
    var w := ContentWindow(frames);
    EnclosingFits(frames, w, height);
    if |frames| == 0 || w.rowFirst == -1 {
      assert frames == Cropped(frames, w, height);
      return frames;
    }
    r := [];
    for k := 0 to |frames|
      invariant |r| == k
      invariant forall f | 0 <= f < k :: r[f] == CropFrame(frames[f], w)
    {
      var rows := CropOneFrame(frames[k], w);
      r := r + [rows];
    }
    assert r == Cropped(frames, w, height);
  }

  // ---------------------------------------------------------------------------------------
  // Putting a cropped frame back
  // ---------------------------------------------------------------------------------------

  /** What cell `c` shows when `f` is drawn on a blank canvas with its corner at the window's. */
  function ShownAt(f: Frame, w: Window, c: Cell): (ch: char) {
    var i, j := c.row - w.rowFirst, c.col - w.colFirst;
    if 0 <= i < |f| && 0 <= j < |f[i]| then f[i][j] else BLANK
  }

  function EmbedRow(f: Frame, w: Window, i: nat, width: nat): (r: Row) {
    seq(width, j => ShownAt(f, w, Cell(i, j)))
  }

  /** `f` drawn on a blank canvas with its corner at the window's. */
  function Embed(f: Frame, w: Window, height: nat, width: nat): (r: Frame) {
    seq(height, i requires 0 <= i => EmbedRow(f, w, i, width))
  }

  /** Cell by cell, a cropped frame shows the original inside the window and nothing outside. */
  lemma CropShows(f: Frame, w: Window, c: Cell)
    requires Fits(w, |f|) && 0 <= c.row < |f| && 0 <= c.col < |f[c.row]|
    ensures ShownAt(CropFrame(f, w), w, c) == if Inside(c, w) then f[c.row][c.col] else BLANK
  {
    if w.rowFirst <= c.row <= w.rowLast {
      var row := f[c.row];
      assert CropFrame(f, w)[c.row - w.rowFirst] == CropRow(row, w);
      CropRowShows(row, w, c.col);
    }
  }

  lemma CropRowShows(row: Row, w: Window, col: nat)
    requires 0 <= w.colFirst <= w.colLast && col < |row|
    ensures var r := CropRow(row, w);
            var j := col - w.colFirst;
            (if 0 <= j < |r| then r[j] else BLANK) == if w.colFirst <= col <= w.colLast then row[col] else BLANK
  {
    var end := Min(w.colLast + 1, |row|);
    var start := Min(w.colFirst, end);
    var cut := row[start..end];
    var r := CropRow(row, w);
    var j := col - w.colFirst;
    if w.colFirst <= col <= w.colLast {
      assert cut[j] == row[col];
    }
  }

  /** Re-embedding a cropped frame gives the original back exactly when the window holds all its
      ink. */
  lemma EmbedRestoresIff(f: Frame, w: Window, height: nat, width: nat)
    requires OfSize(f, height, width) && Fits(w, height)
    ensures Embed(CropFrame(f, w), w, height, width) == f <==> forall c | HasInk(f, c) :: Inside(c, w)
  {
    var back := Embed(CropFrame(f, w), w, height, width);
    forall i, j | 0 <= i < height && 0 <= j < width
      ensures |back| == height && |back[i]| == width
      ensures back[i][j] == if Inside(Cell(i, j), w) then f[i][j] else BLANK
    {
      CropShows(f, w, Cell(i, j));
    }
    if forall c | HasInk(f, c) :: Inside(c, w) {
      forall i | 0 <= i < height ensures back[i] == f[i] {
        assert |back[i]| == width;
        forall j | 0 <= j < width ensures back[i][j] == f[i][j] {
          if f[i][j] != BLANK {
            assert HasInk(f, Cell(i, j));
          }
        }
      }
    }
    if back == f {
      forall c | HasInk(f, c) ensures Inside(c, w) {
        assert back[c.row][c.col] != BLANK;
      }
    }
  }

  predicate Within(v: Window, w: Window) {
    w.rowFirst <= v.rowFirst && v.rowLast <= w.rowLast && w.colFirst <= v.colFirst && v.colLast <= w.colLast
  }

  /** `w` loses nothing: every frame cropped to it can be put back. */
  predicate Restores(frames: seq<Frame>, w: Window, height: nat, width: nat)
    requires Uniform(frames, height, width) && Fits(w, height)
  {
    forall f | 0 <= f < |frames| :: Embed(CropFrame(frames[f], w), w, height, width) == frames[f]
  }

  /** Cropping loses nothing, and the window is the smallest that does not: it lies within every
      window that restores every frame. */
  lemma SmallestWindow(frames: seq<Frame>, w: Window, height: nat, width: nat)
    requires Uniform(frames, height, width) && Encloses(w, Ink(frames)) && Ink(frames) != {}
    ensures Fits(w, height) && Restores(frames, w, height, width)
    ensures forall v | Fits(v, height) && Restores(frames, v, height, width) :: Within(w, v)
  {
    EnclosingFits(frames, w, height);
    forall f | 0 <= f < |frames| ensures Embed(CropFrame(frames[f], w), w, height, width) == frames[f] {
      forall c | HasInk(frames[f], c) ensures Inside(c, w) {
        InkIs(frames, c);
      }
      EmbedRestoresIff(frames[f], w, height, width);
    }
    forall v | Fits(v, height) && Restores(frames, v, height, width) ensures Within(w, v) {
      HoldsInk(frames, v, height, width);
      EnclosedIsLeast(w, Ink(frames), v);
    }
  }

  lemma HoldsInk(frames: seq<Frame>, v: Window, height: nat, width: nat)
    requires Uniform(frames, height, width) && Fits(v, height) && Restores(frames, v, height, width)
    ensures forall c | c in Ink(frames) :: Inside(c, v)
  {
    forall c | c in Ink(frames) ensures Inside(c, v) {
      InkIs(frames, c);
      var f :| 0 <= f < |frames| && HasInk(frames[f], c);
      EmbedRestoresIff(frames[f], v, height, width);
    }
  }

  lemma EnclosedIsLeast(w: Window, cells: set<Cell>, v: Window)
    requires Encloses(w, cells) && cells != {} && forall c | c in cells :: Inside(c, v)
    ensures Within(w, v)
  {
  }

  /** So there is one such window only... */
  lemma WindowIsUnique(w: Window, v: Window, cells: set<Cell>)
    requires Encloses(w, cells) && Encloses(v, cells)
    ensures w == v
  {
    if cells != {} {
      EnclosedIsLeast(w, cells, v);
      EnclosedIsLeast(v, cells, w);
    }
  }

  /** ...and what the crop returns is settled by the frames. */
  lemma CropIsDetermined(a: seq<Frame>, b: seq<Frame>, frames: seq<Frame>, height: nat)
    requires IsCrop(a, frames, height) && IsCrop(b, frames, height)
    ensures a == b
  {
    var w :| Encloses(w, Ink(frames)) && (w.rowFirst == -1 || Fits(w, height)) && a == Cropped(frames, w, height);
    var v :| Encloses(v, Ink(frames)) && (v.rowFirst == -1 || Fits(v, height)) && b == Cropped(frames, v, height);
    WindowIsUnique(w, v, Ink(frames));
  }

  /** Two frames look the same after the crop exactly when they did before. */
  lemma SameCropIff(frames: seq<Frame>, w: Window, height: nat, width: nat, f: nat, g: nat)
    requires Uniform(frames, height, width) && Encloses(w, Ink(frames)) && f < |frames| && g < |frames|
    requires w.rowFirst == -1 || Fits(w, height)
    ensures Cropped(frames, w, height)[f] == Cropped(frames, w, height)[g] <==> frames[f] == frames[g]
  {
    EnclosingFits(frames, w, height);
    if w.rowFirst != -1 {
      SmallestWindow(frames, w, height, width);
    }
  }

  // ---------------------------------------------------------------------------------------
  // Dropping repeats
  // ---------------------------------------------------------------------------------------

  /** The elements that differ from the one immediately before them. */
  function Dedupe<T(==,!new)>(s: seq<T>): (r: seq<T>)
    ensures s != [] ==> r != [] && r[|r| - 1] == s[|s| - 1]
    ensures forall i | 0 < i < |r| :: r[i - 1] != r[i]
    ensures forall x :: x in r <==> x in s
    ensures |r| <= |s|
  {
    if |s| <= 1 then s
    else
      var n := |s| - 1;
      assert s == s[..n] + [s[n]];
      if s[n] == s[n - 1] then Dedupe(s[..n]) else Dedupe(s[..n]) + [s[n]]
  }

  method DedupeConsecutive<T(==,!new)>(frames: seq<T>) returns (deduped: seq<T>)
    ensures deduped == Dedupe(frames)
  {
    if |frames| == 0 {
      return frames;
    }
    deduped := frames[..1];
    for i := 1 to |frames|
      invariant deduped == Dedupe(frames[..i])
    {
      var prev := deduped[|deduped| - 1];
      assert frames[..i + 1][..i] == frames[..i];
      if prev == frames[i] {
        continue;
      }
      deduped := deduped + [frames[i]];
    }
    assert frames[..|frames|] == frames;
  }

  /** Deduping commutes with every change that keeps equal neighbours equal and different ones
      different. */
  lemma {:induction false} DedupeSameShape<S(!new), T(!new)>(s: seq<S>, t: seq<T>, image: S -> T)
    requires |s| == |t| && forall i | 0 <= i < |s| :: t[i] == image(s[i])
    requires forall i, j | 0 <= i < |s| && 0 <= j < |s| :: s[i] == s[j] <==> t[i] == t[j]
    ensures |Dedupe(t)| == |Dedupe(s)|
    ensures forall i | 0 <= i < |Dedupe(s)| :: Dedupe(t)[i] == image(Dedupe(s)[i])
    decreases |s|
  {
    if |s| > 1 {
      var n := |s| - 1;
      DedupeSameShape(s[..n], t[..n], image);
    }
  }

  lemma DedupeInk(frames: seq<Frame>, c: Cell)
    ensures c in Ink(Dedupe(frames)) <==> c in Ink(frames)
  {
    var d := Dedupe(frames);
    InkIs(frames, c);
    InkIs(d, c);
    if c in Ink(frames) {
      var f :| 0 <= f < |frames| && HasInk(frames[f], c);
      assert frames[f] in d;
      var g :| 0 <= g < |d| && d[g] == frames[f];
      assert HasInk(d[g], c);
    }
    if c in Ink(d) {
      var g :| 0 <= g < |d| && HasInk(d[g], c);
      assert d[g] in frames;
      var f :| 0 <= f < |frames| && frames[f] == d[g];
      assert HasInk(frames[f], c);
    }
  }

  lemma DedupeUniform(frames: seq<Frame>, height: nat, width: nat)
    requires Uniform(frames, height, width)
    ensures Uniform(Dedupe(frames), height, width)
  {
    var d := Dedupe(frames);
    forall g | 0 <= g < |d| ensures OfSize(d[g], height, width) {
      assert d[g] in frames;
    }
  }

  /** Crop and dedupe commute: deduping leaves the window as it is, and gives the same frames
      before as after. */
  lemma CropDedupeCommute(frames: seq<Frame>, w: Window, height: nat, width: nat)
    requires Uniform(frames, height, width) && Encloses(w, Ink(frames))
    requires w.rowFirst == -1 || Fits(w, height)
    ensures Uniform(Dedupe(frames), height, width) && Encloses(w, Ink(Dedupe(frames)))
    ensures Dedupe(Cropped(frames, w, height)) == Cropped(Dedupe(frames), w, height)
  {
    DedupeUniform(frames, height, width);
    forall c: Cell ensures c in Ink(Dedupe(frames)) <==> c in Ink(frames) {
      DedupeInk(frames, c);
    }
    assert Ink(Dedupe(frames)) == Ink(frames);
    var image := (f: Frame) => if w.rowFirst != -1 && Fits(w, |f|) then CropFrame(f, w) else f;
    var cropped := Cropped(frames, w, height);
    forall f, g | 0 <= f < |frames| && 0 <= g < |frames| ensures frames[f] == frames[g] <==> cropped[f] == cropped[g] {
      SameCropIff(frames, w, height, width, f, g);
    }
    DedupeSameShape(frames, cropped, image);
  }

  // ---------------------------------------------------------------------------------------
  // The whole pipeline
  // ---------------------------------------------------------------------------------------

  /** Deduping a crop is cropping what was deduped. */
  lemma DedupeOfCrop(cropped: seq<Frame>, frames: seq<Frame>, height: nat, width: nat)
    requires Uniform(frames, height, width) && IsCrop(cropped, frames, height)
    ensures IsCrop(Dedupe(cropped), Dedupe(frames), height) && |Dedupe(cropped)| == |Dedupe(frames)|
  {
    var w :| Encloses(w, Ink(frames)) && (w.rowFirst == -1 || Fits(w, height)) && cropped == Cropped(frames, w, height);
    CropDedupeCommute(frames, w, height, width);
  }

  /** No row ends in a blank. */
  predicate Trimmed(frames: seq<Frame>) {
    forall f, i | 0 <= f < |frames| && 0 <= i < |frames[f]| ::
      frames[f][i] == "" || frames[f][i][|frames[f][i]| - 1] != BLANK
  }

  /** Two frames of one size that differ have ink somewhere. */
  lemma DifferMeansInk(f: Frame, g: Frame, height: nat, width: nat) returns (c: Cell)
    requires OfSize(f, height, width) && OfSize(g, height, width) && f != g
    ensures HasInk(f, c) || HasInk(g, c)
  {
    var i :| 0 <= i < height && f[i] != g[i];
    var j :| 0 <= j < width && f[i][j] != g[i][j];
    c := Cell(i, j);
  }

  lemma CroppedTrimmed(frames: seq<Frame>, w: Window, height: nat)
    requires OfHeight(frames, height) && w.rowFirst != -1 && Fits(w, height)
    ensures Trimmed(Cropped(frames, w, height))
  {
    var r := Cropped(frames, w, height);
    forall f, i | 0 <= f < |r| && 0 <= i < |r[f]| ensures r[f][i] == "" || r[f][i][|r[f][i]| - 1] != BLANK {
      assert r[f][i] == CropRow(frames[f][w.rowFirst + i], w);
    }
  }

  /** Frames that differ have ink, so their crop is trimmed. */
  lemma CropIsTrimmed(r: seq<Frame>, frames: seq<Frame>, height: nat, width: nat)
    requires Uniform(frames, height, width) && IsCrop(r, frames, height)
    requires |frames| >= 2 && frames[0] != frames[1]
    ensures Trimmed(r)
  {
    var w :| Encloses(w, Ink(frames)) && (w.rowFirst == -1 || Fits(w, height)) && r == Cropped(frames, w, height);
    var c := DifferMeansInk(frames[0], frames[1], height, width);
    InkIs(frames, c);
    EnclosingFits(frames, w, height);
    CroppedTrimmed(frames, w, height);
  }

  /** `parseBannerFrames`. A file is taken exactly when it holds frames of one size that are not all
      the same; the frames played are then the file's own, without repeats, cropped to the one window
      these need, and no two in a row are the same. */
  method ParseBannerFrames(raw: string) returns (r: Result)
    ensures var all := Groups(Lines(raw), SEPARATOR);
            r.Frames? <==> OneSize(all) && |Dedupe(all)| >= 2
    ensures var all := Groups(Lines(raw), SEPARATOR);
            r.Frames? ==> IsCrop(r.frames, Dedupe(all), |all[0]|)
    ensures r.Frames? ==> forall i | 0 < i < |r.frames| :: r.frames[i - 1] != r.frames[i]
    ensures r.Frames? ==> Trimmed(r.frames)
  {
    ghost var all := Groups(Lines(raw), SEPARATOR);
    var split := SplitAndValidate(raw);
    if split.Refused? {
      return Refused;
    }
    ghost var height := |all[0]|;
    assert OfHeight(all, height);
    var frames := CropToSharedContent(split.frames, height);
    DedupeOfCrop(frames, all, height, if all[0] == [] then 0 else |all[0][0]|);
    frames := DedupeConsecutive(frames);
    DedupeUniform(all, height, if all[0] == [] then 0 else |all[0][0]|);
    if |frames| < 2 {
      return Refused;
    }
    CropIsTrimmed(frames, Dedupe(all), height, if all[0] == [] then 0 else |all[0][0]|);
    return Frames(frames);
  }

  method MaxFrameRowWidth(frames: seq<Frame>) returns (width: nat)
    ensures Widest(frames, width)
  {
    width := 0;
    for k := 0 to |frames|
      invariant forall f, i | 0 <= f < k && 0 <= i < |frames[f]| :: |frames[f][i]| <= width
      invariant width == 0 || exists f, i :: 0 <= f < |frames| && 0 <= i < |frames[f]| && |frames[f][i]| == width
    {
      for j := 0 to |frames[k]|
        invariant forall f, i | 0 <= f < k && 0 <= i < |frames[f]| :: |frames[f][i]| <= width
        invariant forall i | 0 <= i < j :: |frames[k][i]| <= width
        invariant width == 0 || exists f, i :: 0 <= f < |frames| && 0 <= i < |frames[f]| && |frames[f][i]| == width
      {
        if |frames[k][j]| > width {
          width := |frames[k][j]|;
        }
      }
    }
  }

  lemma CropRowWidth(row: Row, w: Window)
    requires 0 <= w.colFirst <= w.colLast
    ensures |CropRow(row, w)| <= w.colLast + 1 - w.colFirst
    ensures w.colLast < |row| && row[w.colLast] != BLANK ==> |CropRow(row, w)| == w.colLast + 1 - w.colFirst
  {
    if w.colLast < |row| {
      CropRowShows(row, w, w.colLast);
    }
  }

  lemma RightmostInk(frames: seq<Frame>, w: Window) returns (f: nat, i: int)
    requires Encloses(w, Ink(frames)) && Ink(frames) != {}
    ensures f < |frames| && w.rowFirst <= i <= w.rowLast && HasInk(frames[f], Cell(i, w.colLast))
  {
    var d :| d in Ink(frames) && d.col == w.colLast;
    InkIs(frames, d);
    f :| 0 <= f < |frames| && HasInk(frames[f], d);
    i := d.row;
  }

  predicate Widest(frames: seq<Frame>, width: nat) {
    && (forall f, i | 0 <= f < |frames| && 0 <= i < |frames[f]| :: |frames[f][i]| <= width)
    && (width == 0 || exists f, i :: 0 <= f < |frames| && 0 <= i < |frames[f]| && |frames[f][i]| == width)
  }

  lemma CroppedWidth(f: Frame, w: Window)
    requires Fits(w, |f|)
    ensures forall i | 0 <= i < |CropFrame(f, w)| :: |CropFrame(f, w)[i]| <= w.colLast + 1 - w.colFirst
    ensures forall i | w.rowFirst <= i <= w.rowLast && HasInk(f, Cell(i, w.colLast)) ::
              |CropFrame(f, w)[i - w.rowFirst]| == w.colLast + 1 - w.colFirst
  {
    forall i | w.rowFirst <= i <= w.rowLast
      ensures |CropFrame(f, w)[i - w.rowFirst]| <= w.colLast + 1 - w.colFirst
      ensures HasInk(f, Cell(i, w.colLast)) ==> |CropFrame(f, w)[i - w.rowFirst]| == w.colLast + 1 - w.colFirst
    {
      CropRowWidth(f[i], w);
    }
    forall i | 0 <= i < |CropFrame(f, w)| ensures |CropFrame(f, w)[i]| <= w.colLast + 1 - w.colFirst {
      CropRowWidth(f[w.rowFirst + i], w);
    }
  }

  lemma WidestOf(frames: seq<Frame>, width: nat, f: nat, i: nat)
    requires forall k | 0 <= k < |frames| :: forall j | 0 <= j < |frames[k]| :: |frames[k][j]| <= width
    requires f < |frames| && i < |frames[f]| && |frames[f][i]| == width
    ensures Widest(frames, width)
  {
  }

  /** The widest row of the cropped frames is exactly as wide as the window. */
  lemma WidestIsWindow(frames: seq<Frame>, w: Window, height: nat)
    requires OfHeight(frames, height) && Encloses(w, Ink(frames)) && Ink(frames) != {}
    ensures Fits(w, height) && Widest(Cropped(frames, w, height), w.colLast + 1 - w.colFirst)
  {
    EnclosingFits(frames, w, height);
    var f, i := RightmostInk(frames, w);
    forall k | 0 <= k < |frames|
      ensures forall j | 0 <= j < |CropFrame(frames[k], w)| ::
                |CropFrame(frames[k], w)[j]| <= w.colLast + 1 - w.colFirst
    {
      CroppedWidth(frames[k], w);
    }
    CroppedWidth(frames[f], w);
    WidestOf(Cropped(frames, w, height), w.colLast + 1 - w.colFirst, f, i - w.rowFirst);
  }
}
