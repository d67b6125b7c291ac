/**
 Writes cut inside a token. The row counter keeps no state about an unfinished token, so it charges
 the pieces as characters of their own. The main result says how many too many, and exactly when the
 count comes out right all the same.
 */
module SplitWrites {
  import opened Utf8
  import opened Terminal
  import opened RowCount

  lemma TokensStep(s: seq<byte>, t: Token, n: nat, rest: seq<byte>)
    requires s != [] && Lex(s) == (t, n) && s[n..] == rest
    ensures Tokens(s) == [t] + Tokens(rest)
  {
  }

  /** Complete tokens at the front of a byte stream are read as such, whatever follows. */
  lemma {:induction false} TokensBehind(us: seq<Token>, rest: seq<byte>)
    requires AllComplete(us)
    ensures Tokens(Encode(us) + rest) == us + Tokens(rest)
  {
    if us == [] {
      assert Encode(us) + rest == rest && us + Tokens(rest) == Tokens(rest);
    } else {
      var more := Encode(us[1..]) + rest;
      assert Encode(us) + rest == EncodeToken(us[0]) + more;
      LexOfEncoded(us[0], more);
      TokensStep(EncodeToken(us[0]) + more, us[0], |EncodeToken(us[0])|, more);
      TokensBehind(us[1..], rest);
      Regroup(us[0], us[1..], Tokens(rest));
      assert us == [us[0]] + us[1..];
    }
  }

  lemma Regroup(t: Token, us: seq<Token>, vs: seq<Token>)
    ensures [t] + us + vs == [t] + (us + vs)
  {
  }

  /** Each byte as a character of its own. */
  function Singles(bs: seq<byte>): (ts: seq<Token>)
    ensures |ts| == |bs|
    ensures forall i | 0 <= i < |bs| :: ts[i] == Rune([bs[i]])
  {
    seq(|bs|, i requires 0 <= i < |bs| => Rune([bs[i]]))
  }

  /** A byte no rune starts with, or that is a rune by itself, and that starts no other token. */
  predicate Lone(b: byte) {
    Tail(b) || (b < 0x80 && b != NL && b != ESC)
  }

  lemma LexLone(s: seq<byte>)
    requires s != [] && Lone(s[0])
    ensures Lex(s) == (Rune([s[0]]), 1)
  {
    assert s[..1] == [s[0]];
  }

  lemma {:induction false} LoneBytes(bs: seq<byte>, rest: seq<byte>)
    requires forall i | 0 <= i < |bs| :: Lone(bs[i])
    ensures Tokens(bs + rest) == Singles(bs) + Tokens(rest)
    decreases |bs|
  {
    if bs == [] {
      assert bs + rest == rest && Singles(bs) + Tokens(rest) == Tokens(rest);
    } else {
      var s := bs + rest;
      LexLone(s);
      TokensStep(s, Rune([bs[0]]), 1, bs[1..] + rest);
      LoneBytes(bs[1..], rest);
      assert Singles(bs) == [Rune([bs[0]])] + Singles(bs[1..]);
      Regroup(Rune([bs[0]]), Singles(bs[1..]), Tokens(rest));
    }
  }

  lemma LoneBytesAlone(bs: seq<byte>)
    requires forall i | 0 <= i < |bs| :: Lone(bs[i])
    ensures Tokens(bs) == Singles(bs)
  {
    LoneBytes(bs, []);
    assert bs + [] == bs && Singles(bs) + [] == Singles(bs);
  }

  /** The bytes of a rune behind its first are continuation bytes. */
  lemma RuneTail(g: seq<byte>, i: nat)
    requires IsRune(g) && 0 < i < |g|
    ensures Tail(g[i])
  {
  }

  /** The front of a rune, with nothing behind it, is read byte by byte. */
  lemma RuneFront(g: seq<byte>, j: nat)
    requires IsRune(g) && g[0] >= 0x20 && 0 < j < |g|
    ensures Tokens(g[..j]) == Singles(g[..j])
  {
    var s := g[..j];
    assert RuneSize(s) == 0;
    assert Lex(s) == (Rune([s[0]]), 1) by {
      assert s[..1] == [s[0]];
    }
    forall i | 0 <= i < |s[1..]| ensures Lone(s[1..][i]) {
      RuneTail(g, i + 1);
    }
    LoneBytesAlone(s[1..]);
    assert Singles(s) == [Rune([s[0]])] + Singles(s[1..]);
  }

  /** The front of a control sequence: a lone escape is a character, anything longer an unfinished
      sequence. */
  lemma CsiFront(ps: seq<byte>, f: byte, j: nat)
    requires Complete(Csi(ps, f)) && 0 < j < |EncodeToken(Csi(ps, f))|
    ensures var head := EncodeToken(Csi(ps, f))[..j];
            Tokens(head) == if j == 1 then Singles(head) else [Torn(head)]
  {
    var whole := EncodeToken(Csi(ps, f));
    var head := whole[..j];
    assert forall i | 2 <= i < 2 + |ps| :: whole[i] == ps[i - 2];
    if j == 1 {
      assert head == [ESC] && head[1..] == [];
      assert Lex(head) == (Rune([ESC]), 1) by {
        assert head[..1] == [ESC];
      }
    } else {
      assert forall i | 2 <= i < |head| :: !FinalByte(head[i]);
      assert FinalIndex(head, 2) == |head|;
      assert head[|head|..] == [];
    }
  }

  // ---------------------------------------------------------------------------------------
  // What a cut costs
  // ---------------------------------------------------------------------------------------

  /** The characters a token is worth. */
  function Worth(t: Token): (n: nat) {
    if t.Rune? then 1 else 0
  }

  /** The characters too many when the token is cut behind its first `j` bytes: all bytes but one of
      a rune; all bytes of a control sequence cut behind its escape, and what is left of one cut
      later. */
  function Extra(t: Token, j: nat): (e: nat)
    requires Complete(t) && 0 < j < |EncodeToken(t)|
    ensures e >= 1
  {
    var n := |EncodeToken(t)|;
    if t.Rune? then n - 1 else if j == 1 then n else n - j
  }

  /** The bytes behind a cut are read one by one. */
  lemma BackOfToken(t: Token, j: nat, rest: seq<byte>)
    requires Complete(t) && 0 < j < |EncodeToken(t)|
    ensures Tokens(EncodeToken(t)[j..] + rest) == Singles(EncodeToken(t)[j..]) + Tokens(rest)
  {
    var bs := EncodeToken(t);
    forall i | 0 <= i < |bs[j..]| ensures Lone(bs[j..][i]) {
      if t.Rune? {
        RuneTail(t.glyph, j + i);
      }
    }
    LoneBytes(bs[j..], rest);
  }

  /** And those in front of it, with nothing behind them. */
  lemma FrontOfToken(t: Token, j: nat)
    requires Complete(t) && 0 < j < |EncodeToken(t)|
    ensures var front := Tokens(EncodeToken(t)[..j]);
            Unbroken(front) && Visible(front) + (|EncodeToken(t)| - j) == Worth(t) + Extra(t, j)
  {
    var head := EncodeToken(t)[..j];
    if t.Rune? {
      RuneFront(t.glyph, j);
    } else {
      CsiFront(t.params, t.final, j);
    }
    VisibleSingles(head);
    assert Visible([Torn(head)]) == 0;
  }

  lemma {:induction false} VisibleSingles(bs: seq<byte>)
    ensures Visible(Singles(bs)) == |bs|
    decreases |bs|
  {
    if bs != [] {
      VisibleSingles(bs[1..]);
      assert Singles(bs)[1..] == Singles(bs[1..]);
    }
  }

  /** Unbroken stretches of equally many characters count the same. */
  lemma SameStretch(width: int, a: Tally, ts: seq<Token>, us: seq<Token>)
    requires Sane(width, a) && Unbroken(ts) && Unbroken(us) && Visible(ts) == Visible(us)
    ensures Account(width, a, ts) == Account(width, a, us)
  {
    StretchFrom(width, a, ts);
    StretchFrom(width, a, us);
  }

  /** The count of a write that is cut behind the first `j` bytes of `t`. */
  function CutCount(width: int, a: Tally, us: seq<Token>, t: Token, j: nat, vs: seq<Token>): (r: Tally)
    requires j <= |EncodeToken(t)|
  {
    var bs := EncodeToken(t);
    Account(width, Account(width, a, Tokens(Encode(us) + bs[..j])), Tokens(bs[j..] + Encode(vs)))
  }

  /** Cutting a write inside a token charges `Extra` characters in its place. */
  lemma CutAddsCharacters(width: int, a: Tally, us: seq<Token>, t: Token, j: nat, vs: seq<Token>)
    requires Sane(width, a) && AllComplete(us) && AllComplete(vs) && Complete(t) && 0 < j < |EncodeToken(t)|
    ensures var b := Account(width, a, us + [t]);
            CutCount(width, a, us, t, j, vs) == Account(width, b, Chars(Extra(t, j)) + vs)
  {
    var bs, e := EncodeToken(t), Extra(t, j);
    var front, back := Tokens(bs[..j]), Singles(bs[j..]);
    FrontOfToken(t, j);
    BackOfToken(t, j, Encode(vs));
    VisibleSingles(bs[j..]);
    TokensBehind(us, bs[..j]);
    TokensOfEncode(vs);
    var a1 := Account(width, a, us);
    SaneKept(width, a, us);
    AccountConcat(width, a, us, front);
    AccountConcat(width, Account(width, a1, front), back, vs);
    AccountConcat(width, a1, front, back);
    VisibleConcat(front, back);
    TokenStretch(width, a1, t, e, front + back);
    AccountConcat(width, a, us, [t]);
    AccountConcat(width, Account(width, a1, [t]), Chars(e), vs);
  }

  /** A token and `e` characters behind it, met as any unbroken stretch of as many. */
  lemma TokenStretch(width: int, a: Tally, t: Token, e: nat, ts: seq<Token>)
    requires Sane(width, a) && !t.Newline? && Unbroken(ts) && Visible(ts) == Worth(t) + e
    ensures Account(width, Account(width, a, [t]), Chars(e)) == Account(width, a, ts)
  {
    VisibleChars(e);
    VisibleConcat([t], Chars(e));
    assert Visible([t]) == Worth(t);
    SameStretch(width, a, ts, [t] + Chars(e));
    AccountConcat(width, a, [t], Chars(e));
  }

  /** A write cut inside a token counts like the whole write if and only if the rest of it ends a
      line, and that line takes no more rows for the characters charged in excess. */
  lemma CutCountsRightIff(width: int, a: Tally, us: seq<Token>, t: Token, j: nat, vs: seq<Token>)
    requires Sane(width, a) && AllComplete(us) && AllComplete(vs) && Complete(t) && 0 < j < |EncodeToken(t)|
    ensures Tokens(Encode(us + [t] + vs)) == us + [t] + vs
    ensures CutCount(width, a, us, t, j, vs) == Account(width, a, us + [t] + vs)
       <==> Absorbs(width, Account(width, a, us + [t]).col, Extra(t, j), vs)
  {
    TokensOfEncode(us + [t] + vs);
    CutAddsCharacters(width, a, us, t, j, vs);
    SaneKept(width, a, us + [t]);
    AccountConcat(width, a, us + [t], vs);
    ShiftedCountIff(width, Account(width, a, us + [t]), Extra(t, j), vs);
  }

  /** Three cuts at work on an 80-column terminal: a reset sequence cut behind its bracket costs one
      character, a two-byte rune one, and a newline behind either hides it. */
  lemma CutsAtWork()
    ensures var reset, accent := Csi([], SGR), Rune([0xC3, 0xA9]);
            var start := Tally(0, 0, false);
            && CutCount(80, start, [], reset, 2, []) == Tally(1, 0, false) != Account(80, start, [reset])
            && CutCount(80, start, [], accent, 1, []) == Tally(2, 0, false) != Account(80, start, [accent])
            && CutCount(80, start, [], reset, 2, [Newline]) == Tally(0, 1, false)
            && Account(80, start, [reset, Newline]) == Tally(0, 1, false)
  {
    var reset, accent := Csi([], SGR), Rune([0xC3, 0xA9]);
    var start := Tally(0, 0, false);
    CutAddsCharacters(80, start, [], reset, 2, []);
    CutAddsCharacters(80, start, [], reset, 2, [Newline]);
    CutAddsCharacters(80, start, [], accent, 1, []);
    assert [] + [reset] == [reset] && [] + [accent] == [accent];
    assert Chars(1) + [] == [Rune(BLANK)] && Chars(1) + [Newline] == [Rune(BLANK), Newline];
    assert [Rune(BLANK), Newline][1..] == [Newline] && [reset, Newline][1..] == [Newline];
  }
}
