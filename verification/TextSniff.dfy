/**
 Telling a text config from a stray binary by its first 512 bytes.
 */
module TextSniff {

  import opened Utf8

  const SAMPLE: nat := 512
  const UTF_MAX: nat := 4

  /** Well-formed UTF-8: runes one behind the other. */
  predicate Valid(s: seq<byte>) {
    s == [] || (RuneSize(s) > 0 && Valid(s[RuneSize(s)..]))
  }

  predicate NulFree(s: seq<byte>) {
    forall i | 0 <= i < |s| :: s[i] != 0
  }

  function Sample(contents: seq<byte>): (s: seq<byte>)
    ensures s <= contents && |s| <= SAMPLE
  {
    if |contents| > SAMPLE then contents[..SAMPLE] else contents
  }

  /** Dropping `k` trailing bytes leaves well-formed UTF-8. */
  predicate ValidWithout(s: seq<byte>, k: nat) {
    k <= |s| && Valid(s[..|s| - k])
  }

  /** Text, as far as the sample shows: no NUL, and well-formed once a rune cut off at the end is
      dropped. */
  predicate LooksLikeText(contents: seq<byte>) {
    var s := Sample(contents);
    NulFree(s) && exists k: nat | k < UTF_MAX :: ValidWithout(s, k)
  }

  method TextSniffContents(contents: seq<byte>) returns (ok: bool)
    ensures ok <==> LooksLikeText(contents)
  {
    var sample := contents;
    if |sample| > SAMPLE {
      sample := sample[..SAMPLE];
    }
    ghost var whole := sample;
    for i := 0 to |sample|
      invariant NulFree(sample[..i])
    {
      if sample[i] == 0 {
        return false;
      }
    }
    assert sample[..|sample|] == sample;
    if Valid(sample) {
      assert ValidWithout(whole, 0);
      return true;
    }
    var i := 0;
    while i < UTF_MAX - 1 && |sample| > 0
      invariant i <= UTF_MAX - 1 && i <= |whole| && sample == whole[..|whole| - i]
      invariant forall k: nat | k <= i :: !ValidWithout(whole, k)
    {
      sample := sample[..|sample| - 1];
      assert sample == whole[..|whole| - (i + 1)];
      if Valid(sample) {
        assert ValidWithout(whole, i + 1);
        return true;
      }
      i := i + 1;
    }
    return false;
  }

  /** What opening and reading the file gives. */
  datatype File = Unreadable | Readable(contents: seq<byte>)

  datatype Answer = Failed | Sniffed(text: bool)

  /** Only a fixed-size prefix of the file is read, yet the answer is the one its whole contents
      would get. */
  method LooksLikeTextConfig(file: File) returns (r: Answer)
    ensures r == if file.Unreadable? then Failed else Sniffed(LooksLikeText(file.contents))
  {
    if file.Unreadable? {
      return Failed;
    }
    var n := if |file.contents| < SAMPLE then |file.contents| else SAMPLE;
    var buffer := file.contents[..n];
    assert Sample(buffer) == Sample(file.contents);
    var ok := TextSniffContents(buffer);
    return Sniffed(ok);
  }

  // ---------------------------------------------------------------------------------------
  // Cutting a text anywhere
  // ---------------------------------------------------------------------------------------

  lemma RuneInFront(s: seq<byte>)
    requires RuneSize(s) > 0
    ensures IsRune(s[..RuneSize(s)])
  {
    var g := s[..RuneSize(s)];
    assert forall i | 0 <= i < |g| :: g[i] == s[i];
  }

  /** A rune in front of well-formed text is well-formed text. */
  lemma ValidCons(g: seq<byte>, rest: seq<byte>)
    requires IsRune(g) && Valid(rest)
    ensures Valid(g + rest)
  {
    RuneSizeOfPrefix(g, rest);
    assert (g + rest)[|g|..] == rest;
  }

  /** Well-formed text cut at any byte is well-formed again after dropping at most three more. */
  lemma {:induction false} CutIsRepairable(s: seq<byte>, n: nat) returns (k: nat)
    requires Valid(s) && n <= |s|
    ensures k < UTF_MAX && k <= n && Valid(s[..n - k])
    decreases |s|
  {
    var r := RuneSize(s);
    if s == [] || n < r {
      k := n;
    } else {
      k := CutIsRepairable(s[r..], n - r);
      RuneInFront(s);
      ValidCons(s[..r], s[r..][..n - r - k]);
      assert s[..n - k] == s[..r] + s[r..][..n - r - k];
    }
  }

  /** Every well-formed text without a NUL is taken for text, whatever its length and wherever the
      sample cuts it. */
  lemma TextIsAccepted(contents: seq<byte>)
    requires Valid(contents) && NulFree(contents)
    ensures LooksLikeText(contents)
  {
    var s := Sample(contents);
    var k := CutIsRepairable(contents, |s|);
    assert s[..|s| - k] == contents[..|s| - k];
    assert ValidWithout(s, k);
  }

  lemma {:induction false} ValidSplit(a: seq<byte>, b: seq<byte>)
    requires Valid(a)
    ensures Valid(a + b) <==> Valid(b)
    decreases |a|
  {
    if a == [] {
      assert a + b == b;
    } else {
      var r := RuneSize(a);
      RuneInFront(a);
      RuneSizeOfPrefix(a[..r], a[r..] + b);
      assert a + b == a[..r] + (a[r..] + b);
      assert (a + b)[r..] == a[r..] + b;
      ValidSplit(a[r..], b);
    }
  }

  /** Which contents are accepted: a well-formed text without NUL, and behind it, within the sample,
      at most three more bytes, of any kind but NUL. */
  lemma AcceptedIffNearlyText(contents: seq<byte>)
    ensures LooksLikeText(contents)
       <==> exists text: seq<byte>, junk: seq<byte> ::
              Sample(contents) == text + junk && Valid(text) && NulFree(text) && NulFree(junk) && |junk| <= 3
  {
    var s := Sample(contents);
    if LooksLikeText(contents) {
      var k: nat :| k < UTF_MAX && ValidWithout(s, k);
      var text, junk := s[..|s| - k], s[|s| - k..];
      assert s == text + junk;
    }
    forall text: seq<byte>, junk: seq<byte>
      | s == text + junk && Valid(text) && NulFree(text) && NulFree(junk) && |junk| < UTF_MAX
      ensures LooksLikeText(contents)
    {
      assert s[..|s| - |junk|] == text;
      assert ValidWithout(s, |junk|);
    }
  }

  /** The forgiveness for a cut is not limited to a cut: up to three bytes that no rune begins with
      pass behind any short text. */
  lemma ShortJunkPasses(text: seq<byte>, junk: seq<byte>)
    requires Valid(text) && NulFree(text) && 0 < |junk| < UTF_MAX && |text| + |junk| <= SAMPLE
    requires forall i | 0 <= i < |junk| :: junk[i] == 0xFF
    ensures LooksLikeText(text + junk) && !Valid(text + junk)
  {
    ValidSplit(text, junk);
    AcceptedIffNearlyText(text + junk);
  }

  /** 512 bytes are looked at: a NUL among them decides, one behind them does not, nor does anything else
      there. */
  lemma FirstBytesDecide(contents: seq<byte>, i: nat)
    requires i < |contents|
    ensures i < 512 && contents[i] == 0 ==> !LooksLikeText(contents)
    ensures i >= 512 ==> LooksLikeText(contents[i := 0]) == LooksLikeText(contents)
  {
    if i < 512 && contents[i] == 0 {
      assert Sample(contents)[i] == 0;
    } else if i >= 512 {
      assert Sample(contents[i := 0]) == Sample(contents);
    }
  }
}
