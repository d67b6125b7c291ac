/**
 A terminal with deferred autowrap: what a byte stream means on the screen.

 Rows are numbered absolutely, from the first line the terminal ever showed, so scrolling moves
 `top` and never renumbers a row. A cell nobody wrote is a blank.
 */
module Terminal {
  import opened Utf8
  import opened Arithmetic
  import Decimal

  const NL: byte := 0x0A
  const ESC: byte := 0x1B
  const BRACKET: byte := 0x5B
  const SGR: byte := 0x6D
  const CUU: byte := 0x41
  const CUD: byte := 0x42
  const EL: byte := 0x4B

  type Glyph = seq<byte>

  const BLANK: Glyph := [0x20]

  /** One unit of terminal input. `Torn` is a control sequence whose final byte never came. */
  datatype Token =
    | Newline
    | Rune(glyph: Glyph)
    | Csi(params: seq<byte>, final: byte)
    | Torn(bytes: seq<byte>)

  // ---------------------------------------------------------------------------------------
  // Bytes and tokens
  // ---------------------------------------------------------------------------------------

  predicate FinalByte(b: byte) {
    0x40 <= b <= 0x7E
  }

  /** A complete token: a newline, one printable rune, or a CSI sequence as section 5.4 of
      ECMA-48 writes it (parameter and intermediate bytes, then one final byte). */
  predicate Complete(t: Token) {
    match t
    case Newline => true
    case Rune(g) => IsRune(g) && g[0] >= 0x20
    case Csi(ps, f) => FinalByte(f) && forall i | 0 <= i < |ps| :: 0x20 <= ps[i] <= 0x3F
    case Torn(_) => false
  }

  predicate AllComplete(ts: seq<Token>) {
    forall i | 0 <= i < |ts| :: Complete(ts[i])
  }

  function EncodeToken(t: Token): (s: seq<byte>) {
    match t
    case Newline => [NL]
    case Rune(g) => g
    case Csi(ps, f) => [ESC, BRACKET] + ps + [f]
    case Torn(bs) => bs
  }

  function Encode(ts: seq<Token>): (s: seq<byte>) {
    if ts == [] then [] else EncodeToken(ts[0]) + Encode(ts[1..])
  }

  /** The index of the first final byte at or after `from`, or the end of `s`. */
  function FinalIndex(s: seq<byte>, from: nat): (j: nat)
    requires from <= |s|
    ensures from <= j <= |s|
    ensures forall i | from <= i < j :: !FinalByte(s[i])
    ensures j < |s| ==> FinalByte(s[j])
    decreases |s| - from
  {
    if from == |s| || FinalByte(s[from]) then from else FinalIndex(s, from + 1)
  }

  /** The token at the front of `s` and the bytes it takes. */
  function Lex(s: seq<byte>): (r: (Token, nat))
    requires s != []
    ensures 0 < r.1 <= |s|
  {
    if s[0] == NL then (Newline, 1)
    else if s[0] == ESC && |s| > 1 && s[1] == BRACKET then
      var j := FinalIndex(s, 2);
      if j == |s| then (Torn(s), |s|) else (Csi(s[2..j], s[j]), j + 1)
    else
      var n := RuneSize(s);
      var size := if n == 0 then 1 else n;
      (Rune(s[..size]), size)
  }

  /** ESC [ and one more byte is a control sequence if and only if that byte is one of `@` to `~`. */
  lemma SequenceEnds(b: byte, rest: seq<byte>)
    ensures Lex([0x1B, 0x5B, b] + rest) == (Csi([], b), 3) <==> 0x40 <= b <= 0x7E
  {
    var s := [0x1B, 0x5B, b] + rest;
    assert s[2] == b && s[2..2] == [];
    if FinalByte(b) {
      assert FinalIndex(s, 2) == 2;
    }
  }

  /** The tokens of a byte stream. */
  function Tokens(s: seq<byte>): (ts: seq<Token>)
    decreases |s|
  {
    if s == [] then [] else var (t, n) := Lex(s); [t] + Tokens(s[n..])
  }

  lemma LexOfEncoded(t: Token, rest: seq<byte>)
    requires Complete(t)
    ensures EncodeToken(t) != []
    ensures Lex(EncodeToken(t) + rest) == (t, |EncodeToken(t)|)
  {
    var s := EncodeToken(t) + rest;
    match t
    case Newline =>
    case Rune(g) =>
      RuneSizeOfPrefix(g, rest);
      assert s[..|g|] == g;
    case Csi(ps, f) => LexOfCsi(ps, f, rest, s);
  }

  lemma LexOfCsi(ps: seq<byte>, f: byte, rest: seq<byte>, s: seq<byte>)
    requires Complete(Csi(ps, f)) && s == [ESC, BRACKET] + ps + [f] + rest
    ensures Lex(s) == (Csi(ps, f), |ps| + 3)
  {
    assert forall i | 2 <= i < 2 + |ps| :: s[i] == ps[i - 2];
    assert s[2 + |ps|] == f && FinalIndex(s, 2) == 2 + |ps|;
    assert s[2..2 + |ps|] == ps;
  }

  /** Writing complete tokens and lexing the bytes gives the tokens back. */
  lemma {:induction false} TokensOfEncode(ts: seq<Token>)
    requires AllComplete(ts)
    ensures Tokens(Encode(ts)) == ts
  {
    if ts != [] {
      var rest := Encode(ts[1..]);
      LexOfEncoded(ts[0], rest);
      TokensOfEncode(ts[1..]);
      assert Encode(ts)[|EncodeToken(ts[0])|..] == rest;
    }
  }

  lemma {:induction false} EncodeConcat(ts: seq<Token>, us: seq<Token>)
    ensures Encode(ts + us) == Encode(ts) + Encode(us)
  {
    if ts == [] {
      assert ts + us == us;
    } else {
      assert (ts + us)[1..] == ts[1..] + us;
      EncodeConcat(ts[1..], us);
    }
  }

  // ---------------------------------------------------------------------------------------
  // The screen
  // ---------------------------------------------------------------------------------------

  datatype Cursor = Cursor(row: int, col: nat, pending: bool)

  datatype Screen = Screen(width: nat, height: nat, top: int, cur: Cursor, cells: map<(int, int), Glyph>)
  {
    /** The cursor is in the viewport; a wrap can be pending only in the last column. */
    predicate Valid() {
      && 0 < width && 0 < height
      && top <= cur.row < top + height
      && cur.col < width
      && (cur.pending ==> cur.col == width - 1)
    }

    /** The cursor sits at the left margin with nothing pending. */
    predicate AtMargin() {
      cur.col == 0 && !cur.pending
    }
  }

  function At(cells: map<(int, int), Glyph>, row: int, col: int): (g: Glyph) {
    if (row, col) in cells then cells[(row, col)] else BLANK
  }

  predicate IsDigit(b: byte) {
    0x30 <= b <= 0x39
  }

  /** The digits of a numeric parameter string, up to the first other byte. */
  function ParamDigits(ps: seq<byte>): (ds: seq<Decimal.digit>) {
    if ps == [] || !IsDigit(ps[0]) then [] else [ps[0] - 0x30] + ParamDigits(ps[1..])
  }

  /** How far `CSI ps A` and `CSI ps B` move: a missing or zero parameter means one row. */
  function MoveCount(ps: seq<byte>): (n: nat)
    ensures n >= 1
  {
    Max(1, Decimal.Value(ParamDigits(ps)))
  }

  /** Where the wrap that a printed rune resolves puts the cursor. */
  function Unwrapped(c: Cursor): (r: Cursor) {
    if c.pending then Cursor(c.row + 1, 0, false) else c
  }

  /** Cursor effect of a token that prints or ends a line; other tokens leave it alone. */
  function Glide(width: nat, c: Cursor, t: Token): (r: Cursor) {
    match t
    case Newline => Cursor(c.row + 1, 0, false)
    case Rune(_) =>
      var u := Unwrapped(c);
      if u.col + 1 >= width then Cursor(u.row, u.col, true) else Cursor(u.row, u.col + 1, false)
    case _ => c
  }

  /** The viewport after the cursor moved to `row`: it scrolls up just far enough. */
  function Scrolled(top: int, height: nat, row: int): (r: int) {
    Max(top, row - height + 1)
  }

  function ClearRow(cells: map<(int, int), Glyph>, row: int): (r: map<(int, int), Glyph>) {
    map p | p in cells && p.0 != row :: cells[p]
  }

  /** One token's effect. CUU and CUD stop at the margins of the viewport and drop a pending
      wrap; `CSI 2 K` blanks the cursor's row; every other control sequence is invisible. */
  function Step(s: Screen, t: Token): (r: Screen) {
    match t
    case Newline =>
      var c := Glide(s.width, s.cur, t);
      s.(cur := c, top := Scrolled(s.top, s.height, c.row))
    case Rune(g) =>
      var u := Unwrapped(s.cur);
      var c := Glide(s.width, s.cur, t);
      s.(cur := c, top := Scrolled(s.top, s.height, c.row), cells := s.cells[(u.row, u.col) := g])
    case Csi(ps, f) =>
      if f == CUU then s.(cur := Cursor(Max(s.top, s.cur.row - MoveCount(ps)), s.cur.col, false))
      else if f == CUD then
        s.(cur := Cursor(Min(s.top + s.height - 1, s.cur.row + MoveCount(ps)), s.cur.col, false))
      else if f == EL && ps == [0x32] then s.(cells := ClearRow(s.cells, s.cur.row))
      else s
    case Torn(_) => s
  }

  function Feed(s: Screen, ts: seq<Token>): (r: Screen)
    decreases |ts|
  {
    if ts == [] then s else Feed(Step(s, ts[0]), ts[1..])
  }

  lemma {:induction false} FeedConcat(s: Screen, ts: seq<Token>, us: seq<Token>)
    ensures Feed(s, ts + us) == Feed(Feed(s, ts), us)
    decreases |ts|
  {
    if ts == [] {
      assert ts + us == us;
    } else {
      assert (ts + us)[1..] == ts[1..] + us;
      FeedConcat(Step(s, ts[0]), ts[1..], us);
    }
  }

  lemma {:induction false} FeedKeepsSize(s: Screen, ts: seq<Token>)
    ensures Feed(s, ts).width == s.width && Feed(s, ts).height == s.height
    ensures s.Valid() ==> Feed(s, ts).Valid()
    decreases |ts|
  {
    if ts != [] {
      FeedKeepsSize(Step(s, ts[0]), ts[1..]);
    }
  }

  lemma FeedValid(s: Screen, ts: seq<Token>)
    requires s.Valid()
    ensures Feed(s, ts).Valid()
    ensures Feed(s, ts).width == s.width && Feed(s, ts).height == s.height
  {
    FeedKeepsSize(s, ts);
  }

  // ---------------------------------------------------------------------------------------
  // Ink: text whose effect is an overlay
  // ---------------------------------------------------------------------------------------

  /** Text, line ends and styling: tokens that only ever move the cursor forward. */
  predicate Inky(t: Token) {
    t.Newline? || t.Rune? || (t.Csi? && t.final == SGR)
  }

  predicate AllInky(ts: seq<Token>) {
    forall i | 0 <= i < |ts| :: Inky(ts[i])
  }

  function Travel(width: nat, c: Cursor, ts: seq<Token>): (r: Cursor)
    decreases |ts|
  {
    if ts == [] then c else Travel(width, Glide(width, c, ts[0]), ts[1..])
  }

  /** The cells that `ts` writes when it starts at `c`. */
  function Ink(width: nat, c: Cursor, ts: seq<Token>): (r: map<(int, int), Glyph>)
    decreases |ts|
  {
    if ts == [] then map[]
    else
      var rest := Ink(width, Glide(width, c, ts[0]), ts[1..]);
      match ts[0]
      case Rune(g) =>
        var u := Unwrapped(c);
        map[(u.row, u.col) := g] + rest
      case _ => rest
  }

  lemma {:induction false} TravelForward(width: nat, c: Cursor, ts: seq<Token>)
    requires 0 < width && c.col < width
    ensures Travel(width, c, ts).row >= c.row && Travel(width, c, ts).col < width
    decreases |ts|
  {
    if ts != [] {
      TravelForward(width, Glide(width, c, ts[0]), ts[1..]);
    }
  }

  lemma {:induction false} TravelConcat(width: nat, c: Cursor, ts: seq<Token>, us: seq<Token>)
    ensures Travel(width, c, ts + us) == Travel(width, Travel(width, c, ts), us)
    decreases |ts|
  {
    if ts == [] {
      assert ts + us == us;
    } else {
      assert (ts + us)[1..] == ts[1..] + us;
      TravelConcat(width, Glide(width, c, ts[0]), ts[1..], us);
    }
  }

  lemma {:induction false} InkConcat(width: nat, c: Cursor, ts: seq<Token>, us: seq<Token>)
    ensures Ink(width, c, ts + us) == Ink(width, c, ts) + Ink(width, Travel(width, c, ts), us)
    decreases |ts|
  {
    if ts == [] {
      assert ts + us == us;
      assert map[] + Ink(width, c, us) == Ink(width, c, us);
    } else {
      assert (ts + us)[1..] == ts[1..] + us;
      InkConcat(width, Glide(width, c, ts[0]), ts[1..], us);
    }
  }

  /** Feeding ink is an overlay: new cells over old, the cursor carried along its path, and the
      viewport scrolled exactly as far as the last row reached needs. */
  lemma {:induction false} FeedInk(s: Screen, ts: seq<Token>)
    requires s.Valid() && AllInky(ts)
    ensures var c := Travel(s.width, s.cur, ts);
            Feed(s, ts) == Screen(s.width, s.height, Scrolled(s.top, s.height, c.row), c,
                                  s.cells + Ink(s.width, s.cur, ts))
    decreases |ts|
  {
    if ts != [] {
      var s1 := Step(s, ts[0]);
      FeedInk(s1, ts[1..]);
      TravelForward(s.width, s1.cur, ts[1..]);
      var rest := Ink(s.width, s1.cur, ts[1..]);
      match ts[0]
      case Rune(g) =>
        var u := Unwrapped(s.cur);
        assert s.cells[(u.row, u.col) := g] + rest == s.cells + (map[(u.row, u.col) := g] + rest);
      case _ =>
    } else {
      assert s.cells + map[] == s.cells;
    }
  }
}
