/**
 The marked block an install keeps in a user-owned file: replaced where it is found, appended where
 it is not, everything else left alone.
 */
module TurnBlock {

  /** A pair of markers. `Ok` is what keeps them apart from each other, from themselves and from
      line ends: `<` only in front, no newline, and a difference at index 13. */
  datatype Marks = Marks(begin: string, end: string) {
    predicate Ok() {
      && |begin| > 13 && |end| > 13 && begin[13] != end[13]
      && begin[0] == '<' && end[0] == '<'
      && (forall i | 0 < i < |begin| :: begin[i] != '<' && begin[i] != '\n')
      && (forall i | 0 < i < |end| :: end[i] != '<' && end[i] != '\n')
    }
  }

  const TURN: Marks := Marks("<!-- moltnet:begin -->", "<!-- moltnet:end -->")

  lemma TurnMarksOk()
    ensures TURN.Ok()
  {
  }

  datatype Outcome = Text(text: string) | OrphanMarker

  /** `pat` occurs in `s` at `i`. */
  predicate OccursAt(s: string, pat: string, i: nat) {
    i + |pat| <= |s| && s[i..i + |pat|] == pat
  }

  /** The first occurrence of `pat` at or after `from`, or -1. */
  function IndexFrom(s: string, pat: string, from: nat): (r: int)
    ensures r == -1 || (from <= r && r + |pat| <= |s|)
    decreases |s| - from
  {
    if from + |pat| > |s| then -1
    else if s[from..from + |pat|] == pat then from
    else IndexFrom(s, pat, from + 1)
  }

  lemma {:induction false} IndexFromIsFirst(s: string, pat: string, from: nat)
    ensures var r := IndexFrom(s, pat, from);
            && (r >= 0 ==> OccursAt(s, pat, r))
            && forall i: nat | from <= i && (r == -1 || i < r) :: !OccursAt(s, pat, i)
    decreases |s| - from
  {
    if from + |pat| <= |s| && s[from..from + |pat|] != pat {
      IndexFromIsFirst(s, pat, from + 1);
    }
  }

  function Index(s: string, pat: string): (r: int)
    ensures r == -1 || (0 <= r && r + |pat| <= |s|)
  {
    IndexFrom(s, pat, 0)
  }

  /** `Index` is the first occurrence, and -1 only where there is none. */
  lemma IndexIsFirst(s: string, pat: string)
    ensures var r := Index(s, pat);
            && (r >= 0 ==> OccursAt(s, pat, r))
            && forall i: nat | r == -1 || i < r :: !OccursAt(s, pat, i)
  {
    IndexFromIsFirst(s, pat, 0);
  }

  predicate Contains(s: string, pat: string) {
    Index(s, pat) >= 0
  }

  function Block(m: Marks, rule: string): (s: string) {
    m.begin + "\n" + rule + m.end + "\n"
  }

  /** One newline after the end marker belongs to the block. */
  function TrimNewline(s: string): (r: string) {
    if |s| > 0 && s[0] == '\n' then s[1..] else s
  }

  /** What separates an appended block from the text before it. */
  function Gap(s: string): (g: string) {
    if s == "" then ""
    else if |s| >= 2 && s[|s| - 2..] == "\n\n" then ""
    else if s[|s| - 1] == '\n' then "\n"
    else "\n\n"
  }

  /** `withTurnBlock`. */
  function WithTurnBlock(m: Marks, existing: string, rule: string): (r: Outcome) {
    WithBlock(m, existing, Block(m, rule))
  }

  function WithBlock(m: Marks, existing: string, block: string): (r: Outcome) {
    var begin := Index(existing, m.begin);
    if begin >= 0 then
      var end := Index(existing[begin..], m.end);
      if end < 0 then OrphanMarker
      else Text(existing[..begin] + block + TrimNewline(existing[begin + end + |m.end|..]))
    else Text(existing + Gap(existing) + block)
  }

  // ---------------------------------------------------------------------------------------
  // Where markers can be found
  // ---------------------------------------------------------------------------------------

  lemma IndexIs(s: string, pat: string, r: nat)
    requires OccursAt(s, pat, r)
    requires forall i: nat | i < r :: !OccursAt(s, pat, i)
    ensures Index(s, pat) == r
  {
    IndexIsFirst(s, pat);
  }

  lemma Mismatch(s: string, pat: string, i: nat, j: nat)
    requires j < |pat| && i + j < |s| && s[i + j] != pat[j]
    ensures !OccursAt(s, pat, i)
  {
    if i + |pat| <= |s| {
      assert s[i..i + |pat|][j] == s[i + j];
    }
  }

  lemma OccursInPrefix(a: string, b: string, pat: string, i: nat)
    requires i + |pat| <= |a|
    ensures OccursAt(a + b, pat, i) <==> OccursAt(a, pat, i)
  {
    assert (a + b)[i..i + |pat|] == a[i..i + |pat|];
  }

  lemma OccursInSuffix(a: string, b: string, pat: string, i: nat)
    requires |a| <= i
    ensures OccursAt(a + b, pat, i) <==> OccursAt(b, pat, i - |a|)
  {
    if i + |pat| <= |a + b| {
      assert (a + b)[i..i + |pat|] == b[i - |a|..i - |a| + |pat|];
    }
  }

  /** A marker that starts inside `a` cannot reach into a `b` that starts with `<`. */
  lemma NoStraddle(m: Marks, a: string, b: string, pat: string, i: nat)
    requires m.Ok()
    requires pat == m.begin || pat == m.end
    requires i < |a| < i + |pat| && |b| > 0 && b[0] == '<'
    ensures !OccursAt(a + b, pat, i)
  {
    Mismatch(a + b, pat, i, |a| - i);
  }

  /** Behind a text that does not hold it, a marker is the first of its kind. */
  lemma FirstBehind(m: Marks, a: string, pat: string, rest: string)
    requires m.Ok()
    requires pat == m.begin || pat == m.end
    requires !Contains(a, pat)
    ensures Index(a + (pat + rest), pat) == |a|
  {
    var tail := pat + rest;
    assert tail[..|pat|] == pat;
    OccursInSuffix(a, tail, pat, |a|);
    forall i: nat | i < |a| ensures !OccursAt(a + tail, pat, i) {
      if i + |pat| <= |a| {
        IndexIsFirst(a, pat);
        OccursInPrefix(a, tail, pat, i);
      } else {
        NoStraddle(m, a, tail, pat, i);
      }
    }
    IndexIs(a + tail, pat, |a|);
  }

  /** Cutting a text at the first occurrence leaves none in front. */
  lemma HeadIsClear(s: string, pat: string)
    requires |pat| > 0 && Contains(s, pat)
    ensures !Contains(s[..Index(s, pat)], pat)
  {
    var b := Index(s, pat);
    IndexIsFirst(s, pat);
    IndexIsFirst(s[..b], pat);
    var i := Index(s[..b], pat);
    if i >= 0 {
      assert s == s[..b] + s[b..];
      OccursInPrefix(s[..b], s[b..], pat, i);
    }
  }

  /** The end marker does not begin inside the begin marker, so looking for it from the begin marker
      on is looking for it behind. */
  lemma EndBehindBegin(m: Marks, text: string)
    requires m.Ok()
    ensures Index(m.begin + text, m.end) == if Contains(text, m.end) then |m.begin| + Index(text, m.end) else -1
  {
    var s := m.begin + text;
    IndexIsFirst(text, m.end);
    if Contains(text, m.end) {
      var at := |m.begin| + Index(text, m.end);
      OccursInSuffix(m.begin, text, m.end, at);
      forall i: nat | i < at ensures !OccursAt(s, m.end, i) {
        EndOnlyBehind(m, text, i);
      }
      IndexIs(s, m.end, at);
    } else {
      IndexIsFirst(s, m.end);
      EndOnlyBehind(m, text, if Index(s, m.end) < 0 then 0 else Index(s, m.end));
    }
  }

  lemma EndOnlyBehind(m: Marks, text: string, i: nat)
    requires m.Ok()
    ensures OccursAt(m.begin + text, m.end, i) ==> |m.begin| <= i && OccursAt(text, m.end, i - |m.begin|)
  {
    if i < |m.begin| {
      EndNotInside(m, text, i);
    } else {
      OccursInSuffix(m.begin, text, m.end, i);
    }
  }

  lemma EndNotInside(m: Marks, rest: string, i: nat)
    requires m.Ok()
    requires i < |m.begin|
    ensures !OccursAt(m.begin + rest, m.end, i)
  {
    if i + |m.end| <= |m.begin + rest| {
      Mismatch(m.begin + rest, m.end, i, if i == 0 then 13 else 0);
    }
  }

  /** Newlines in front of a text cannot start a marker. */
  lemma NewlineInFront(m: Marks, x: string)
    requires m.Ok() && !Contains(x, m.end)
    ensures !Contains("\n" + x, m.end)
  {
    var s := "\n" + x;
    IndexIsFirst(s, m.end);
    IndexIsFirst(x, m.end);
    var i := Index(s, m.end);
    Mismatch(s, m.end, 0, 0);
    if i > 0 {
      OccursInSuffix("\n", x, m.end, i);
    }
  }

  /** Newlines behind a text cannot complete a marker in it. */
  lemma NewlinesBehind(m: Marks, x: string, gap: string)
    requires m.Ok() && !Contains(x, m.begin)
    requires forall j | 0 <= j < |gap| :: gap[j] == '\n'
    ensures !Contains(x + gap, m.begin)
  {
    var last := |m.begin| - 1;
    IndexIsFirst(x + gap, m.begin);
    IndexIsFirst(x, m.begin);
    var i := Index(x + gap, m.begin);
    if i >= 0 {
      if i + |m.begin| <= |x| {
        OccursInPrefix(x, gap, m.begin, i);
      } else {
        Mismatch(x + gap, m.begin, i, last);
      }
    }
  }

  // ---------------------------------------------------------------------------------------
  // What an install does to a file
  // ---------------------------------------------------------------------------------------

  /** A text whose first begin marker follows `head`, whose next end marker follows `inner`. */
  function Marked(m: Marks, head: string, inner: string, rest: string): (s: string) {
    head + (m.begin + (inner + (m.end + rest)))
  }

  /** Every text either holds no begin marker, or a begin marker no end marker follows, or splits
      around its first block. */
  lemma Splits(m: Marks, x: string) returns (head: string, inner: string, rest: string)
    requires m.Ok() && WithBlock(m, x, "").Text? && Contains(x, m.begin)
    ensures !Contains(head, m.begin) && !Contains(inner, m.end)
    ensures x == Marked(m, head, inner, rest)
  {
    head, inner := CutAt(x, m.begin);
    HeadIsClear(x, m.begin);
    var text := inner;
    assert x[|head|..] == m.begin + text;
    EndBehindBegin(m, text);
    inner, rest := CutAt(text, m.end);
    HeadIsClear(text, m.end);
  }

  lemma CutAt(s: string, pat: string) returns (head: string, rest: string)
    requires Contains(s, pat)
    ensures head == s[..Index(s, pat)]
    ensures s == head + (pat + rest)
  {
    IndexIsFirst(s, pat);
    var i := Index(s, pat);
    head, rest := s[..i], s[i + |pat|..];
    assert s == s[..i] + s[i..i + |pat|] + s[i + |pat|..];
  }

  lemma ReplaceAt(m: Marks, x: string, block: string, b: nat, e: nat, rest: string)
    requires Index(x, m.begin) == b && Index(x[b..], m.end) == e
    requires b + e + |m.end| <= |x| && x[b + e + |m.end|..] == rest
    ensures WithBlock(m, x, block) == Text(x[..b] + block + TrimNewline(rest))
  {
  }

  /** The text around the block survives: everything before it exactly, everything after it but for
      one newline behind the end marker. */
  lemma AroundIsKept(m: Marks, head: string, inner: string, rest: string, block: string)
    requires m.Ok()
    requires !Contains(head, m.begin) && !Contains(inner, m.end)
    ensures WithBlock(m, Marked(m, head, inner, rest), block) == Text(head + block + TrimNewline(rest))
  {
    var tail := inner + (m.end + rest);
    var x := head + (m.begin + tail);
    FirstBehind(m, head, m.begin, tail);
    FirstBehind(m, inner, m.end, rest);
    EndBehindBegin(m, tail);
    Slices(head, m.begin + tail, |m.begin| + |inner| + |m.end|);
    Slices(m.begin, tail, |inner| + |m.end|);
    Slices(inner, m.end + rest, |m.end|);
    Slices(m.end, rest, 0);
    ReplaceAt(m, x, block, |head|, |m.begin| + |inner|, rest);
  }

  lemma Slices(a: string, b: string, k: nat)
    requires k <= |b|
    ensures (a + b)[..|a|] == a && (a + b)[|a|..] == b && (a + b)[|a| + k..] == b[k..]
  {
  }

  /** A text without the begin marker is kept whole, in front of the block and a blank line. */
  lemma AppendIsKept(m: Marks, x: string, block: string)
    requires m.Ok() && !Contains(x, m.begin)
    ensures WithBlock(m, x, block) == Text(x + Gap(x) + block)
    ensures !Contains(x + Gap(x), m.begin)
  {
    NewlinesBehind(m, x, Gap(x));
  }

  predicate EndsParagraph(y: string) {
    |y| >= 2 && y[|y| - 2] == '\n' && y[|y| - 1] == '\n'
  }

  lemma NoGapBehind(y: string)
    requires EndsParagraph(y)
    ensures Gap(y) == ""
  {
    assert y[|y| - 2..] == [y[|y| - 2], y[|y| - 1]];
  }

  lemma GapCompletes(x: string)
    requires x != ""
    ensures EndsParagraph(x + Gap(x))
  {
    if |x| >= 2 && x[|x| - 2..] == "\n\n" {
      assert x[|x| - 2..][0] == x[|x| - 2] && x[|x| - 2..][1] == x[|x| - 1];
      assert x + "" == x;
    } else if x[|x| - 1] == '\n' {
      OneMore(x);
    } else {
      TwoMore(x);
    }
  }

  lemma OneMore(x: string)
    requires x != "" && x[|x| - 1] == '\n'
    ensures EndsParagraph(x + "\n")
  {
  }

  lemma TwoMore(x: string)
    ensures EndsParagraph(x + "\n\n")
  {
  }

  /** The gap completes a blank line, and adds nothing where there is one already. */
  lemma GapEndsParagraph(x: string)
    ensures x + Gap(x) == "" || EndsParagraph(x + Gap(x))
    ensures Gap(x + Gap(x)) == ""
  {
    if x != "" {
      GapCompletes(x);
      NoGapBehind(x + Gap(x));
    }
  }

  /** An install is refused exactly when no end marker follows the first begin marker. */
  lemma RefusedIffOrphan(m: Marks, x: string, rule: string)
    requires m.Ok()
    ensures WithTurnBlock(m, x, rule).OrphanMarker?
       <==> exists head: string, text: string ::
              x == head + (m.begin + text) && !Contains(head, m.begin) && !Contains(text, m.end)
  {
    if WithTurnBlock(m, x, rule).OrphanMarker? {
      var head, text := CutAt(x, m.begin);
      HeadIsClear(x, m.begin);
      Slices(head, m.begin + text, 0);
      EndBehindBegin(m, text);
    }
    forall head: string, text: string
      | x == head + (m.begin + text) && !Contains(head, m.begin) && !Contains(text, m.end)
      ensures WithTurnBlock(m, x, rule).OrphanMarker?
    {
      FirstBehind(m, head, m.begin, text);
      Slices(head, m.begin + text, 0);
      EndBehindBegin(m, text);
    }
  }

  // ---------------------------------------------------------------------------------------
  // Installing over an install
  // ---------------------------------------------------------------------------------------

  /** A first install always has the form: untouched text, block, untouched rest. */
  lemma InstalledForm(m: Marks, x: string) returns (head: string, rest: string)
    requires m.Ok() && WithBlock(m, x, "").Text?
    ensures !Contains(head, m.begin)
    ensures forall block: string :: WithBlock(m, x, block) == Text(head + block + rest)
  {
    if Contains(x, m.begin) {
      var inner, more;
      head, inner, more := Splits(m, x);
      rest := TrimNewline(more);
      forall block: string ensures WithBlock(m, x, block) == Text(head + block + rest) {
        AroundIsKept(m, head, inner, more, block);
      }
    } else {
      head, rest := x + Gap(x), "";
      forall block: string ensures WithBlock(m, x, block) == Text(head + block + rest) {
        AppendIsKept(m, x, block);
        assert head + block + "" == head + block;
      }
      AppendIsKept(m, x, "");
    }
  }

  /** An installed block splits at the first end marker behind its rule's start: the rule's own if
      the rule holds one. */
  lemma InstalledSplits(m: Marks, head: string, rule: string, rest: string) returns (inner: string, more: string)
    requires m.Ok()
    ensures head + Block(m, rule) + rest == Marked(m, head, inner, more)
    ensures !Contains(inner, m.end)
    ensures !Contains(rule, m.end) ==> TrimNewline(more) == rest
    ensures Contains(rule, m.end) ==> |TrimNewline(more)| > |rest|
  {
    if Contains(rule, m.end) {
      var front, back := CutAt(rule, m.end);
      HeadIsClear(rule, m.end);
      NewlineInFront(m, front);
      inner, more := "\n" + front, back + (m.end + ("\n" + rest));
      Regroup(m, head, front, m.end + back, rest);
      assert (m.end + back) + (m.end + ("\n" + rest)) == m.end + more;
    } else {
      NewlineInFront(m, rule);
      inner, more := "\n" + rule, "\n" + rest;
      Regroup(m, head, rule, "", rest);
      assert rule + "" == rule && "" + (m.end + more) == m.end + more;
    }
  }

  lemma Regroup(m: Marks, head: string, front: string, back: string, rest: string)
    ensures head + Block(m, front + back) + rest
         == head + (m.begin + (("\n" + front) + (back + (m.end + ("\n" + rest)))))
  {
  }

  /** Last wins: installing `r2` over an installed `r1` gives what installing `r2` alone would,
      exactly when `r1` holds no end marker of its own. */
  lemma LastWinsIff(m: Marks, x: string, r1: string, r2: string)
    requires m.Ok() && WithTurnBlock(m, x, r1).Text?
    ensures WithTurnBlock(m, WithTurnBlock(m, x, r1).text, r2) == WithTurnBlock(m, x, r2) <==> !Contains(r1, m.end)
  {
    var head, rest := InstalledForm(m, x);
    var inner, more := InstalledSplits(m, head, r1, rest);
    AroundIsKept(m, head, inner, more, Block(m, r2));
    assert WithBlock(m, x, Block(m, r1)) == Text(head + Block(m, r1) + rest);
    assert WithBlock(m, x, Block(m, r2)) == Text(head + Block(m, r2) + rest);
    SameTail(head + Block(m, r2), TrimNewline(more), rest);
  }

  lemma SameTail(a: string, b: string, c: string)
    ensures a + b == a + c <==> b == c
  {
    Slices(a, b, 0);
    Slices(a, c, 0);
  }

  /** Last wins with the markers the installer writes; so installing one rule twice changes nothing
      the second time exactly when the rule holds no end marker. */
  lemma InstallLastWinsIff(x: string, r1: string, r2: string)
    requires WithTurnBlock(TURN, x, r1).Text?
    ensures WithTurnBlock(TURN, WithTurnBlock(TURN, x, r1).text, r2) == WithTurnBlock(TURN, x, r2)
       <==> !Contains(r1, TURN.end)
  {
    TurnMarksOk();
    LastWinsIff(TURN, x, r1, r2);
  }

  lemma InstallIdempotentIff(x: string, rule: string)
    requires WithTurnBlock(TURN, x, rule).Text?
    ensures WithTurnBlock(TURN, WithTurnBlock(TURN, x, rule).text, rule) == WithTurnBlock(TURN, x, rule)
       <==> !Contains(rule, TURN.end)
  {
    InstallLastWinsIff(x, rule, rule);
  }

  /** The gap is the shortest run of newlines that completes a blank line. */
  lemma GapIsLeast(x: string, gap: string)
    requires x != "" && (forall i | 0 <= i < |gap| :: gap[i] == '\n') && EndsParagraph(x + gap)
    ensures |Gap(x)| <= |gap| && forall i | 0 <= i < |Gap(x)| :: Gap(x)[i] == '\n'
  {
    if |gap| == 0 {
      assert x + gap == x;
      NoGapBehind(x);
    } else if |gap| == 1 {
      assert (x + gap)[|x| - 1] == x[|x| - 1];
    }
  }

  /** What an install into a file without a block writes, to the letter. */
  lemma InstalledText(x: string, rule: string)
    requires !Contains(x, TURN.begin)
    ensures WithTurnBlock(TURN, x, rule)
         == Text(x + Gap(x) + ("<!-- moltnet:begin -->\n" + rule + "<!-- moltnet:end -->\n"))
  {
    TurnMarksOk();
    AppendIsKept(TURN, x, Block(TURN, rule));
    assert "<!-- moltnet:begin -->" + "\n" == "<!-- moltnet:begin -->\n";
    assert "<!-- moltnet:end -->" + "\n" == "<!-- moltnet:end -->\n";
    Letters(TURN.begin, rule, TURN.end);
  }

  lemma Letters(begin: string, rule: string, end: string)
    ensures begin + "\n" + rule + end + "\n" == (begin + "\n") + rule + (end + "\n")
  {
  }

  /** So a new file holds the block alone. */
  lemma NewFile(rule: string)
    ensures WithTurnBlock(TURN, "", rule) == Text("<!-- moltnet:begin -->\n" + rule + "<!-- moltnet:end -->\n")
  {
    IndexIsFirst("", TURN.begin);
    InstalledText("", rule);
    assert "" + Gap("") == "";
  }
}
