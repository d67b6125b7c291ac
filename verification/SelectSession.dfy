/**
 One select prompt as a whole, on values: what reading the keys prints, how the prompt ends, and
 what it leaves on the terminal.
 */
module SelectSession {
  import opened Utf8
  import opened Terminal
  import opened RowCount
  import opened SelectBlock
  import opened SelectKeys

  datatype Outcome = Confirmed | Cancelled | ContextDone | ReadFailed

  /** One select prompt, or what is left of it: what is asked, the option marked, and what will be
      typed. The context is cancelled once `patience` keys were read. */
  datatype Session = Session(
    question: Text, options: seq<Choice>, color: bool, start: nat,
    input: seq<byte>, ending: Ending, patience: nat)
  {
    predicate Ok() {
      start < |options| && Printable(question) && AllOk(options)
    }

    /** The session behind one key that did not end it. */
    function Next(): (e: Session)
      requires Ok() && Decode(input, ending).0.Pressed?
    {
      var (res, n) := Decode(input, ending);
      this.(start := Press(start, res.key, |options|), input := input[n..],
            patience := if patience == 0 then 0 else patience - 1)
    }
  }

  /** How a prompt ends: the terminal, the outcome, and the option marked last. */
  datatype Finish = Finish(screen: Screen, outcome: Outcome, shown: nat)

  /** A terminal after climbing `rows` rows and printing the options. */
  function Reprinted(s: Screen, rows: nat, options: seq<Choice>, current: int, color: bool): (r: Screen) {
    Feed(Feed(s, [Up(rows)]), Block(options, current, color))
  }

  /** What reading the keys does to a terminal: a redraw for every arrow, a newline for an answer.
      End of input answers too. */
  function Played(s: Screen, rows: nat, e: Session): (r: Finish)
    requires e.Ok()
    ensures r.shown < |e.options|
    decreases |e.input|
  {
    var res := Decode(e.input, e.ending).0;
    if e.patience == 0 then Finish(s, ContextDone, e.start)
    else if res.Failed? then
      if res.why == Broken then Finish(s, ReadFailed, e.start) else Finish(Feed(s, [Newline]), Confirmed, e.start)
    else if res.key == KeyCancel then Finish(s, Cancelled, e.start)
    else if res.key == KeyConfirm then Finish(Feed(s, [Newline]), Confirmed, e.start)
    else if res.key == KeyNone then Played(s, rows, e.Next())
    else Played(Reprinted(s, rows, e.options, e.Next().start, e.color), rows, e.Next())
  }

  /** A whole select prompt on terminal `s`. */
  function Prompted(s: Screen, e: Session): (r: Finish)
    requires e.Ok()
    ensures r.shown < |e.options|
  {
    Played(Feed(Feed(s, QuestionLine(e.question)), Block(e.options, e.start, e.color)),
           OptionRows(s.width, e.options), e)
  }

  // ---------------------------------------------------------------------------------------
  // What a prompt leaves printed
  // ---------------------------------------------------------------------------------------

  /** The question, the block with option `current` marked, and the blank line of a confirmed
      answer. */
  function SelectTranscript(question: Text, options: seq<Choice>, current: int, color: bool,
                            blank: bool): (ts: seq<Token>) {
    QuestionLine(question) + (Block(options, current, color) + Blank(blank))
  }

  function Blank(blank: bool): (ts: seq<Token>) {
    if blank then [Newline] else []
  }

  /** The rows a prompt reports. */
  function SelectRows(width: int, question: Text, options: seq<Choice>, blank: bool): (r: nat) {
    QuestionRows(width, question) + OptionRows(width, options) + (if blank then 1 else 0)
  }

  /** A question from any column, its block and the blank line: the question's line takes what it
      takes from there, everything else what was measured. */
  lemma SelectTranscriptCounts(width: int, a: Tally, question: Text, options: seq<Choice>, current: int, color: bool,
                               blank: bool)
    requires Sane(width, a) && Printable(question) && AllOk(options)
    ensures var rows := LineRows(a.col + 2 + |question|, width) + OptionRows(width, options) + |Blank(blank)|;
            Account(width, a, SelectTranscript(question, options, current, color, blank))
            == Tally(0, a.rows + rows, false)
  {
    var q, o, n := QuestionLine(question), Block(options, current, color), Blank(blank);
    QuestionPiece(question);
    LineFrom(width, a, QuestionText(question));
    var b := Account(width, a, q);
    BlockRows(width, options, current, color);
    AccountFromZero(width, b, o);
    AccountConcat(width, a, q, o + n);
    AccountConcat(width, b, o, n);
  }

  lemma SelectTranscriptInky(question: Text, options: seq<Choice>, current: int, color: bool, blank: bool)
    requires Printable(question) && AllOk(options)
    ensures AllInky(SelectTranscript(question, options, current, color, blank))
    ensures AllComplete(SelectTranscript(question, options, current, color, blank))
  {
    BlockInky(options, current, color);
    QuestionPiece(question);
    InkyJoin(Block(options, current, color), Blank(blank));
    InkyJoin(QuestionLine(question), Block(options, current, color) + Blank(blank));
  }

  lemma InkyJoin(a: seq<Token>, b: seq<Token>)
    requires AllInky(a) && AllInky(b) && AllComplete(a) && AllComplete(b)
    ensures AllInky(a + b) && AllComplete(a + b)
  {
  }

  lemma FeedTranscript(s: Screen, question: Text, options: seq<Choice>, current: int, color: bool, blank: bool)
    ensures Feed(s, SelectTranscript(question, options, current, color, blank))
         == Feed(Feed(Feed(s, QuestionLine(question)), Block(options, current, color)), Blank(blank))
  {
    FeedConcat(s, QuestionLine(question), Block(options, current, color) + Blank(blank));
    FeedConcat(Feed(s, QuestionLine(question)), Block(options, current, color), Blank(blank));
  }

  // ---------------------------------------------------------------------------------------
  // The prompt on a terminal tall enough
  // ---------------------------------------------------------------------------------------

  lemma QuestionEndsAtMargin(s: Screen, question: Text)
    requires s.Valid()
    ensures Feed(s, QuestionLine(question)).AtMargin()
  {
    var ts := QuestionText(question);
    FeedConcat(s, ts, [Newline]);
    var s1 := Feed(s, ts);
    assert Feed(s1, [Newline]) == Step(s1, Newline);
  }

  /** One redraw is a fresh printing. */
  lemma ReprintedIsFresh(s: Screen, options: seq<Choice>, from: int, to: int, color: bool)
    requires s.Valid() && s.AtMargin() && options != [] && AllOk(options)
    requires OptionRows(s.width, options) < s.height
    ensures Reprinted(Feed(s, Block(options, from, color)), OptionRows(s.width, options), options, to, color)
         == Feed(s, Block(options, to, color))
  {
    var rows := OptionRows(s.width, options);
    RedrawIsFreshPaint(s, options, from, to, color);
    FeedConcat(Feed(s, Block(options, from, color)), [Up(rows)], Block(options, to, color));
  }

  /** However many redraws, the terminal shows what one printing of the last block shows. */
  lemma {:induction false} PlayedIsFresh(s: Screen, e: Session)
    requires s.Valid() && s.AtMargin() && e.Ok() && OptionRows(s.width, e.options) < s.height
    ensures var r := Played(Feed(s, Block(e.options, e.start, e.color)), OptionRows(s.width, e.options), e);
            r.screen == Feed(Feed(s, Block(e.options, r.shown, e.color)), Blank(r.outcome.Confirmed?))
    decreases |e.input|
  {
    var res := Decode(e.input, e.ending).0;
    if e.patience > 0 && res.Pressed? && res.key != KeyCancel && res.key != KeyConfirm {
      PlayedIsFresh(s, e.Next());
      ReprintedIsFresh(s, e.options, e.start, e.Next().start, e.color);
    }
  }

  /** On a terminal taller than the option block, a prompt leaves exactly one transcript: question,
      block for the option marked last, and the blank line of a confirmed answer. */
  lemma PromptedIsTranscript(s: Screen, e: Session)
    requires s.Valid() && e.Ok() && OptionRows(s.width, e.options) < s.height
    ensures var r := Prompted(s, e);
            r.screen == Feed(s, SelectTranscript(e.question, e.options, r.shown, e.color, r.outcome.Confirmed?))
  {
    var s1 := Feed(s, QuestionLine(e.question));
    FeedValid(s, QuestionLine(e.question));
    QuestionEndsAtMargin(s, e.question);
    PlayedIsFresh(s1, e);
    var r := Prompted(s, e);
    FeedTranscript(s, e.question, e.options, r.shown, e.color, r.outcome.Confirmed?);
  }

  /** A confirmed answer is where the arrows lead. */
  lemma {:induction false} PlayedAnswer(s: Screen, rows: nat, e: Session)
    requires e.Ok()
    ensures var r := Played(s, rows, e);
            r.outcome.Confirmed? ==> r.shown == Walk(e.start, Moves(e.input, e.ending), |e.options|)
    decreases |e.input|
  {
    var (res, n) := Decode(e.input, e.ending);
    if e.patience > 0 && res.Pressed? && res.key != KeyCancel && res.key != KeyConfirm {
      PlayedAnswer(if res.key == KeyNone then s else Reprinted(s, rows, e.options, e.Next().start, e.color), rows,
                   e.Next());
      assert Moves(e.input, e.ending)[1..] == Moves(e.input[n..], e.ending);
    }
  }

  /** What the end of the stream means: Enter answers, and so does end of input; Ctrl-C cancels; anything else
      is a read that failed. */
  function Verdict(tail: seq<byte>, ending: Ending): (o: Outcome) {
    if tail != [] && tail[0] == 0x03 then Cancelled
    else if ending == Broken && (tail == [] || tail[0] == 0x1B) then ReadFailed
    else Confirmed
  }

  /** How a prompt ends, in the bytes typed: the strokes that fit the patience, then the end of the
      stream. */
  lemma {:induction false} PlayedVerdict(s: Screen, rows: nat, e: Session, ks: seq<Stroke>, tail: seq<byte>)
    requires e.Ok() && StrokesOk(ks) && Final(tail) && e.input == Spelled(ks) + tail
    ensures Played(s, rows, e).outcome == if e.patience <= |ks| then ContextDone else Verdict(tail, e.ending)
    decreases |ks|
  {
    if ks == [] {
      assert e.input == tail;
      FinalOutcome(s, rows, e);
    } else if e.patience > 0 {
      var rest := Spelled(ks[1..]) + tail;
      SpelledFirst(ks, tail);
      StrokeGoesOn(s, rows, e, ks[0], rest);
      PlayedVerdict(if ks[0].Key() == KeyNone then s else Reprinted(s, rows, e.options, e.Next().start, e.color),
                    rows, e.Next(), ks[1..], tail);
    }
  }

  lemma FinalOutcome(s: Screen, rows: nat, e: Session)
    requires e.Ok() && Final(e.input)
    ensures Played(s, rows, e).outcome == if e.patience == 0 then ContextDone else Verdict(e.input, e.ending)
  {
  }

  /** One stroke is read, and the prompt goes on with the rest. */
  lemma StrokeGoesOn(s: Screen, rows: nat, e: Session, k: Stroke, rest: seq<byte>)
    requires e.Ok() && k.Ok() && e.patience > 0 && e.input == k.Bytes() + rest
    ensures Decode(e.input, e.ending) == (Pressed(k.Key()), |k.Bytes()|)
    ensures e.Next().input == rest && e.Next().patience == e.patience - 1 && e.Next().ending == e.ending
    ensures Played(s, rows, e)
         == Played(if k.Key() == KeyNone then s else Reprinted(s, rows, e.options, e.Next().start, e.color), rows,
                   e.Next())
  {
    DecodeStroke(k, rest, e.ending);
  }

  /** And the answer: as many options down as there are down arrows among those bytes, less the up arrows. */
  lemma PlayedArrows(s: Screen, rows: nat, e: Session)
    requires e.Ok()
    ensures EndsAs(Played(s, rows, e), e, Strokes(e.input).0, Strokes(e.input).1)
  {
    PlayedVerdict(s, rows, e, Strokes(e.input).0, Strokes(e.input).1);
    PlayedAnswer(s, rows, e);
    AnswersSo(Played(s, rows, e), e, Strokes(e.input).0, Strokes(e.input).1);
  }

  predicate EndsAs(r: Finish, e: Session, ks: seq<Stroke>, tail: seq<byte>)
    requires e.Ok()
  {
    && r.outcome == (if e.patience <= |ks| then ContextDone else Verdict(tail, e.ending))
    && (r.outcome.Confirmed? ==> r.shown == (e.start + Arrows(ks)) % |e.options|)
  }

  lemma AnswersSo(r: Finish, e: Session, ks: seq<Stroke>, tail: seq<byte>)
    requires e.Ok() && StrokesOk(ks) && Final(tail) && e.input == Spelled(ks) + tail
    requires r.outcome == if e.patience <= |ks| then ContextDone else Verdict(tail, e.ending)
    requires r.outcome.Confirmed? ==> r.shown == Walk(e.start, Moves(e.input, e.ending), |e.options|)
    ensures EndsAs(r, e, ks, tail)
  {
    ArrowsLead(e.start, e.input, e.ending, ks, tail, |e.options|);
  }

  lemma ArrowsLead(start: nat, input: seq<byte>, ending: Ending, ks: seq<Stroke>, tail: seq<byte>, n: nat)
    requires start < n && StrokesOk(ks) && Final(tail) && input == Spelled(ks) + tail
    ensures Walk(start, Moves(input, ending), n) == (start + Arrows(ks)) % n
  {
    SpelledMoves(ks, tail, ending);
    KeysNet(ks);
    NetIsDownsMinusUps(Keys(ks));
    WalkIsModular(start, Keys(ks), n);
  }

  lemma {:induction false} PlayedSize(s: Screen, rows: nat, e: Session)
    requires e.Ok()
    ensures Played(s, rows, e).screen.width == s.width && Played(s, rows, e).screen.height == s.height
    ensures s.Valid() ==> Played(s, rows, e).screen.Valid()
    decreases |e.input|
  {
    var res := Decode(e.input, e.ending).0;
    FeedKeepsSize(s, [Newline]);
    if e.patience > 0 && res.Pressed? && res.key != KeyCancel && res.key != KeyConfirm {
      if res.key == KeyNone {
        PlayedSize(s, rows, e.Next());
      } else {
        FeedKeepsSize(s, [Up(rows)]);
        FeedKeepsSize(Feed(s, [Up(rows)]), Block(e.options, e.Next().start, e.color));
        PlayedSize(Reprinted(s, rows, e.options, e.Next().start, e.color), rows, e.Next());
      }
    }
  }

  lemma PromptedSize(s: Screen, e: Session)
    requires e.Ok()
    ensures Prompted(s, e).screen.width == s.width && Prompted(s, e).screen.height == s.height
    ensures s.Valid() ==> Prompted(s, e).screen.Valid()
  {
    var s1 := Feed(s, QuestionLine(e.question));
    FeedKeepsSize(s, QuestionLine(e.question));
    FeedKeepsSize(s1, Block(e.options, e.start, e.color));
    PlayedSize(Feed(s1, Block(e.options, e.start, e.color)), OptionRows(s.width, e.options), e);
  }
}
