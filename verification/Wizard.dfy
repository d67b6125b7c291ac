/**
 The wizard under its live header: the select prompt with its in-place redraws, and whole runs of
 writes, echoes, prompts, ticks and resizes.
 */
module Wizard {
  import opened Arithmetic
  import opened Utf8
  import opened Terminal
  import opened RowCount
  import opened SelectBlock
  import opened SelectKeys
  import opened SelectSession
  import opened HeaderPaint
  import opened Accounting
  import opened HeaderEvents
  import opened HeaderRun
  import opened UnbookedEcho
  import opened OrdinaryRuns
  import opened HeaderShow
  import opened SetupHeader
  import opened PlainSelect

  // ---------------------------------------------------------------------------------------
  // Measuring
  // ---------------------------------------------------------------------------------------

  /** Measures the option block by running the row counter over the text it would print. */
  method SelectOptionsRows(width: int, options: seq<Choice>, current: int, color: bool) returns (rows: nat)
    requires AllOk(options)
    ensures rows == OptionRows(width, options)
  {
    ghost var lines := OptionLines(options, current, color);
    var b: seq<byte> := [];
    for i := 0 to |options|
      invariant b == Encode(Printed(lines[..i]))
    {
      PrintedSnoc(lines, i);
      EncodeConcat(Printed(lines[..i]), OptionText(options[i], i == current, color) + [Newline]);
      b := b + Encode(OptionText(options[i], i == current, color) + [Newline]);
    }
    assert lines[..|options|] == lines;
    BlockInky(options, current, color);
    TokensOfEncode(Block(options, current, color));
    BlockRows(width, options, current, color);
    var a := AdvanceRows(0, width, false, b);
    rows := a.rows;
  }

  lemma {:induction false} PrintedConcat(ls: seq<seq<Token>>, ms: seq<seq<Token>>)
    ensures Printed(ls + ms) == Printed(ls) + Printed(ms)
  {
    if ls == [] {
      assert ls + ms == ms;
    } else {
      assert (ls + ms)[1..] == ls[1..] + ms;
      PrintedConcat(ls[1..], ms);
    }
  }

  lemma PrintedSnoc(ls: seq<seq<Token>>, i: nat)
    requires i < |ls|
    ensures Printed(ls[..i + 1]) == Printed(ls[..i]) + (ls[i] + [Newline])
  {
    assert ls[..i + 1] == ls[..i] + [ls[i]];
    PrintedConcat(ls[..i], [ls[i]]);
    assert Printed([ls[i]]) == ls[i] + [Newline] + Printed([]);
  }

  /** Measures question and options in their settled state. */
  method SelectBlockRows(width: int, question: Text, options: seq<Choice>, current: int,
                         color: bool) returns (rows: nat)
    requires Printable(question) && AllOk(options)
    ensures rows == SelectRows(width, question, options, false)
  {
    QuestionTakesItsRows(width, question);
    QuestionPiece(question);
    TokensOfEncode(QuestionLine(question));
    var a := AdvanceRows(0, width, false, Encode(QuestionLine(question)));
    var o := SelectOptionsRows(width, options, current, color);
    rows := a.rows + o;
  }

  // ---------------------------------------------------------------------------------------
  // Painting the widget
  // ---------------------------------------------------------------------------------------

  /** Emits tokens through the header; the row count is whatever it is. */
  method Show(h: Header, ts: seq<Token>)
    requires ts != [] && AllComplete(ts)
    modifies h`bodyLines, h`col, h`pendingWrap, h`lastNL, h`quiet, h.file`screen
    ensures h.file.screen == Feed(old(h.file.screen), ts) && h.quiet == Feed(old(h.quiet), ts)
    ensures ts[|ts| - 1] == Newline ==> !h.pendingWrap
  {
    var b := Encode(ts);
    assert b[..|b|] == b;
    BookedOfEncode(h.file.screen.width, h.Book(), ts);
    if ts[|ts| - 1] == Newline {
      NewlineEndsAtMargin(h.file.screen.width, Tallied(h.Book()), ts);
    }
    h.Write(b, |b|);
  }

  method PrintOption(h: Header, o: Choice, current: bool, color: bool)
    requires o.Ok()
    modifies h`bodyLines, h`col, h`pendingWrap, h`lastNL, h`quiet, h.file`screen
    ensures h.file.screen == Feed(old(h.file.screen), OptionText(o, current, color) + [Newline]) && !h.pendingWrap
    ensures h.quiet == Feed(old(h.quiet), OptionText(o, current, color) + [Newline])
  {
    OptionPiece(o, current, color);
    Show(h, OptionText(o, current, color) + [Newline]);
  }

  lemma PrintedStep(s: Screen, ls: seq<seq<Token>>, i: nat)
    requires i < |ls|
    ensures Feed(Feed(s, Printed(ls[..i])), ls[i] + [Newline]) == Feed(s, Printed(ls[..i + 1]))
  {
    PrintedSnoc(ls, i);
    FeedConcat(s, Printed(ls[..i]), ls[i] + [Newline]);
  }

  /** Prints the option lines, one write each. */
  method PrintOptions(h: Header, options: seq<Choice>, current: int, color: bool)
    requires options != [] && AllOk(options)
    modifies h`bodyLines, h`col, h`pendingWrap, h`lastNL, h`quiet, h.file`screen
    ensures h.file.screen == Feed(old(h.file.screen), Block(options, current, color)) && !h.pendingWrap
    ensures h.quiet == Feed(old(h.quiet), Block(options, current, color))
  {
    ghost var s0, q0 := h.file.screen, h.quiet;
    ghost var lines := OptionLines(options, current, color);
    for i := 0 to |options|
      invariant i > 0 ==> !h.pendingWrap
      invariant h.file.screen == Feed(s0, Printed(lines[..i])) && h.quiet == Feed(q0, Printed(lines[..i]))
    {
      PrintedStep(s0, lines, i);
      PrintedStep(q0, lines, i);
      PrintOption(h, options[i], i == current, color);
    }
    assert lines[..|options|] == lines;
  }

  /** Prints the options, climbing back over the previously printed block first on a redraw; without a
      real terminal behind standard output there is no climb. */
  method RenderSelectOptions(
    h: Header, options: seq<Choice>, current: int, color: bool, prevRows: nat, redraw: bool, realTty: bool)
    requires options != [] && AllOk(options) && prevRows >= 1
    modifies h`bodyLines, h`col, h`pendingWrap, h`lastNL, h`quiet, h.file`screen
    ensures !h.pendingWrap
    ensures h.file.screen == if redraw && realTty then Reprinted(old(h.file.screen), prevRows, options, current, color)
                             else Feed(old(h.file.screen), Block(options, current, color))
    ensures h.quiet == if redraw && realTty then Reprinted(old(h.quiet), prevRows, options, current, color)
                       else Feed(old(h.quiet), Block(options, current, color))
  {
    if redraw && realTty {
      MoveCountOfParam(prevRows);
      Show(h, [Up(prevRows)]);
    }
    PrintOptions(h, options, current, color);
  }

  // ---------------------------------------------------------------------------------------
  // The prompt
  // ---------------------------------------------------------------------------------------

  /** Reading on from terminals `s` and `q` ends in `end` and `quiet`. Quantified, as `Good` is, so that
      the loop need not look inside. */
  ghost predicate Ahead(s: Screen, q: Screen, rows: nat, e: Session, end: Finish, quiet: Screen) {
    forall t: Session | t == e && t.Ok() :: Played(s, rows, t) == end && Played(q, rows, t).screen == quiet
  }

  lemma AheadOn(s: Screen, q: Screen, rows: nat, e: Session, end: Finish, quiet: Screen)
    requires Ahead(s, q, rows, e, end, quiet) && e.Ok()
    requires e.patience > 0 && Decode(e.input, e.ending).0.Pressed?
    requires Decode(e.input, e.ending).0.key != KeyCancel && Decode(e.input, e.ending).0.key != KeyConfirm
    ensures if Decode(e.input, e.ending).0.key == KeyNone then Ahead(s, q, rows, e.Next(), end, quiet)
            else Ahead(Reprinted(s, rows, e.options, e.Next().start, e.color),
                       Reprinted(q, rows, e.options, e.Next().start, e.color),
                       rows, e.Next(), end, quiet)
  {
    assert Played(s, rows, e) == end && Played(q, rows, e).screen == quiet;
  }

  lemma AheadEnds(s: Screen, q: Screen, rows: nat, e: Session, end: Finish, quiet: Screen)
    requires Ahead(s, q, rows, e, end, quiet) && e.Ok()
    ensures var res := Decode(e.input, e.ending).0;
            if e.patience == 0 then end == Finish(s, ContextDone, e.start) && quiet == q
            else if res.Failed? && res.why == Broken then end == Finish(s, ReadFailed, e.start) && quiet == q
            else if res.Pressed? && res.key == KeyCancel then end == Finish(s, Cancelled, e.start) && quiet == q
            else res.Failed? || res.key == KeyConfirm ==>
              end == Finish(Feed(s, [Newline]), Confirmed, e.start) && quiet == Feed(q, [Newline])
  {
    assert Played(s, rows, e) == end && Played(q, rows, e).screen == quiet;
  }

  /** The prompt on terminals `s` and `q` ends in `end` and `quiet`. */
  ghost predicate EndsIn(s: Screen, q: Screen, e: Session, end: Finish, quiet: Screen) {
    forall t: Session | t == e && t.Ok() :: Prompted(s, t) == end && Prompted(q, t).screen == quiet
  }

  /** Where a prompt will end, once question and block are printed. */
  lemma Outlook(s: Screen, q: Screen, e: Session) returns (end: Finish, quiet: Screen)
    requires e.Ok() && q.width == s.width
    ensures Ahead(Feed(Feed(s, QuestionLine(e.question)), Block(e.options, e.start, e.color)),
                  Feed(Feed(q, QuestionLine(e.question)), Block(e.options, e.start, e.color)),
                  OptionRows(s.width, e.options), e, end, quiet)
    ensures EndsIn(s, q, e, end, quiet)
  {
    end, quiet := Prompted(s, e), Prompted(q, e).screen;
  }

  /** The arrow-key prompt on a real terminal. The context is cancelled once `patience` keys were
      read. */
  method PromptSelectInteractive(
    h: Header, question: Text, options: seq<Choice>, color: bool, defaultIndex: nat, reader: Reader, patience: nat)
    returns (index: nat, paintedRows: nat, outcome: Outcome, ghost shown: nat)
    requires h.quiet.width == h.file.screen.width
    requires Printable(question) && AllOk(options) && defaultIndex < |options|
    modifies h`bodyLines, h`col, h`pendingWrap, h`lastNL, h`quiet, h.file`screen, reader`input
    ensures !h.pendingWrap
    ensures EndsIn(old(h.file.screen), old(h.quiet),
                   Session(question, options, color, defaultIndex, old(reader.input), reader.ending, patience),
                   Finish(h.file.screen, outcome, shown), h.quiet)
    ensures index == if outcome.Confirmed? then shown else 0
    ensures paintedRows == SelectRows(old(h.file.screen).width, question, options, outcome.Confirmed?)
  {
    ghost var e := Session(question, options, color, defaultIndex, reader.input, reader.ending, patience);
    ghost var end, quiet := Outlook(h.file.screen, h.quiet, e);
    QuestionPiece(question);
    Show(h, QuestionLine(question));
    FeedKeepsSize(old(h.file.screen), QuestionLine(question));
    var width := h.file.screen.width;
    var current: nat := defaultIndex;
    var optionRows := SelectOptionsRows(width, options, current, color);
    RenderSelectOptions(h, options, current, color, optionRows, false, true);
    var keys := 0;
    while true
      invariant !h.pendingWrap && current < |options|
      invariant optionRows == OptionRows(width, options)
      invariant keys <= patience
      invariant e == Session(question, options, color, current, reader.input, reader.ending, patience - keys)
      invariant Ahead(h.file.screen, h.quiet, optionRows, e, end, quiet)
      decreases |reader.input|
    {
      var rows := SelectBlockRows(width, question, options, current, color);
      AheadEnds(h.file.screen, h.quiet, optionRows, e, end, quiet);
      if keys == patience {
        return 0, rows, ContextDone, current;
      }
      var res := reader.ReadSelectKey();
      keys := keys + 1;
      if res.Failed? && res.why == Broken {
        return 0, rows, ReadFailed, current;
      }
      if res.Pressed? && res.key == KeyCancel {
        return 0, rows, Cancelled, current;
      }
      if res.Failed? || res.key == KeyConfirm {
        Show(h, [Newline]);
        return current, rows + 1, Confirmed, current;
      }
      AheadOn(h.file.screen, h.quiet, optionRows, e, end, quiet);
      e := e.Next();
      if res.key == KeyUp || res.key == KeyDown {
        current := Press(current, res.key, |options|);
        RenderSelectOptions(h, options, current, color, optionRows, true, true);
        optionRows := SelectOptionsRows(width, options, current, color);
      }
    }
  }

  /** The widget runs and the row count is set to what it measured. */
  method SelectAndReconcile(
    h: Header, question: Text, options: seq<Choice>, color: bool, start: nat, reader: Reader, patience: nat)
    returns (index: nat, outcome: Outcome)
    requires h.quiet.width == h.file.screen.width
    requires Printable(question) && AllOk(options) && start < |options|
    modifies h`bodyLines, h`col, h`pendingWrap, h`lastNL, h`quiet, h.file`screen, reader`input
    ensures Chooses(old(h.Look()), Session(question, options, color, start, old(reader.input), reader.ending, patience),
                    h.Look(), index, outcome)
  {
    ghost var v := h.Look();
    ghost var e := Session(question, options, color, start, reader.input, reader.ending, patience);
    var pre := h.SnapshotBodyLines();
    var painted;
    ghost var shown;
    index, painted, outcome, shown := PromptSelectInteractive(h, question, options, color, start, reader, patience);
    h.ReconcileSelectBodyLines(pre, painted);
    Choosing(v, e, Finish(h.file.screen, outcome, shown), h.quiet, h.Look(), index);
  }

  /** The prompt turns `v` into `w` with this answer. Quantified, as `Good` is. */
  ghost predicate Chooses(v: View, e: Session, w: View, index: nat, outcome: Outcome) {
    forall t: Session | t == e && t.Ok() ::
      && Selected(v, t) == w && Prompted(v.s, t).outcome == outcome
      && (outcome.Confirmed? ==> index == Prompted(v.s, t).shown)
  }

  lemma Choosing(v: View, e: Session, end: Finish, quiet: Screen, w: View, index: nat)
    requires e.Ok() && EndsIn(v.s, v.quiet, e, end, quiet) && (end.outcome.Confirmed? ==> index == end.shown)
    requires w == v.(s := end.screen, quiet := quiet,
                     l := Reconciled(v.l, SelectRows(v.s.width, e.question, e.options, end.outcome.Confirmed?)))
    ensures Chooses(v, e, w, index, end.outcome)
  {
    assert Prompted(v.s, e) == end && Prompted(v.quiet, e).screen == quiet;
  }

  /** A default outside the list means the first option. */
  function StartIndex(defaultIndex: int, n: nat): (i: nat)
    requires n > 0
    ensures i < n
  {
    if 0 <= defaultIndex < n then defaultIndex else 0
  }

  /** Prints lines one write at a time. */
  method PrintEach(h: Header, lines: seq<seq<Token>>)
    requires Formed(h.Look()) && AllLines(lines)
    modifies h`bodyLines, h`col, h`pendingWrap, h`lastNL, h`quiet, h.file`screen
    ensures EventsOk(PrintLines(lines)) && Leads(old(h.Look()), PrintLines(lines), h.Look()) && Formed(h.Look())
  {
    ghost var v := h.Look();
    LinesOk(lines);
    LeadsNowhere(v);
    assert PrintLines(lines[..0]) == [];
    for i := 0 to |lines|
      invariant Formed(h.Look()) && EventsOk(PrintLines(lines[..i]))
      invariant Leads(v, PrintLines(lines[..i]), h.Look())
    {
      ghost var u := h.Look();
      var bytes := Encode(lines[i] + [Newline]);
      assert PrintAll(lines[i] + [Newline]) == PrintLines(lines)[i];
      h.Write(bytes, |bytes|);
      LeadsOne(u, PrintAll(lines[i] + [Newline]), h.Look());
      LeadsThen(v, PrintLines(lines[..i]), u, [PrintAll(lines[i] + [Newline])], h.Look());
      assert PrintLines(lines[..i]) + [PrintAll(lines[i] + [Newline])] == PrintLines(lines[..i + 1]);
    }
    assert lines[..|lines|] == lines;
  }

  /** The prompt's open line, the answer read past the header, and the check line. */
  method TakeReply(h: Header, options: seq<Choice>, start: nat, color: bool, line: Line)
    requires Formed(h.Look()) && AllOk(options) && line.Ok(options)
    modifies h`bodyLines, h`col, h`pendingWrap, h`lastNL, h`quiet, h.file`screen
    ensures EventsOk(Reply(options, start, color, line)) && Formed(h.Look())
    ensures Leads(old(h.Look()), Reply(options, start, color, line), h.Look())
  {
    ghost var v := h.Look();
    PromptPiece(start);
    var ask := Encode(Runes(ChoicePrompt(start)));
    assert ask[..|ask|] == ask;
    h.PromptYesNo(ask, line.typed, line.entered);
    ghost var es := AskYesNo(ask, line.typed, line.entered);
    assert es == [PrintAll(Runes(ChoicePrompt(start)))] + [Echo(line.typed, line.entered)];
    LeadsFormed(v, es, h.Look());
    if line.chosen.Some? {
      ghost var u := h.Look();
      var title := options[line.chosen.value].title;
      var check := CheckLine(title, color);
      CheckPiece(title, color);
      PieceIsLine(check, 4 + |title|);
      PrintEach(h, [check]);
      assert PrintLines([check]) == [PrintAll(check + [Newline])];
      LeadsThen(v, es, u, PrintLines([check]), h.Look());
    } else {
      assert es + [] == es;
    }
  }

  /** The numbered list, one line read past the header, and the check line. */
  method PromptSelectPlain(h: Header, question: Text, options: seq<Choice>, start: nat, color: bool, line: Line)
    requires Formed(h.Look()) && Printable(question) && AllOk(options) && line.Ok(options)
    modifies h`bodyLines, h`col, h`pendingWrap, h`lastNL, h`quiet, h.file`screen
    ensures EventsOk(PlainPrompt(question, options, start, color, line)) && Formed(h.Look())
    ensures Leads(old(h.Look()), PlainPrompt(question, options, start, color, line), h.Look())
  {
    ghost var v := h.Look();
    ListIsLines(question, options, start, color);
    PrintEach(h, ListLines(question, options, start, color));
    ghost var u := h.Look();
    TakeReply(h, options, start, color, line);
    LeadsThen(v, PrintLines(ListLines(question, options, start, color)), u, Reply(options, start, color, line),
              h.Look());
  }

  /** The events of the numbered prompt under the header. */
  function AskPlain(question: Text, options: seq<Choice>, start: nat, color: bool, line: Line, animating: bool)
    : (es: seq<Event>)
    requires line.Ok(options)
  {
    [Suspend] + (PlainPrompt(question, options, start, color, line) + Resumption(animating))
  }

  method AskNumbered(h: Header, question: Text, options: seq<Choice>, start: nat, color: bool, line: Line)
    requires Formed(h.Look()) && Printable(question) && AllOk(options) && line.Ok(options)
    modifies h`bodyLines, h`col, h`pendingWrap, h`lastNL, h`quiet, h`running, h.file`screen
    ensures Leads(old(h.Look()), AskPlain(question, options, start, color, line, h.animating), h.Look())
  {
    ghost var v := h.Look();
    h.Suspend();
    ghost var v1 := h.Look();
    LeadsOne(v, Event.Suspend, v1);
    PromptSelectPlain(h, question, options, start, color, line);
    ghost var v2 := h.Look();
    ghost var es := PlainPrompt(question, options, start, color, line);
    h.Resume();
    LeadsThen(v1, es, v2, Resumption(h.animating), h.Look());
    LeadsThen(v, [Event.Suspend], v1, es + Resumption(h.animating), h.Look());
  }

  /** A select question under the header, on a fresh line or not: the ticker rests for the whole read
      and resumes after it. With raw mode engaged a confirmed answer is where the arrows lead; without it
      the numbered prompt runs, and `line` is what was typed and what it was parsed to. */
  method SetupPromptSelect(
    h: Header, question: Text, options: seq<Choice>, color: bool, defaultIndex: int, raw: bool, reader: Reader,
    patience: nat, line: Line)
    returns (index: nat, outcome: Outcome)
    requires Formed(h.Look()) && Printable(question) && AllOk(options) && line.Ok(options)
    modifies h`bodyLines, h`col, h`pendingWrap, h`lastNL, h`quiet, h`running, h.file`screen, reader`input
    ensures options == [] ==>
              outcome.ReadFailed? && Leads(old(h.Look()), [Suspend] + Resumption(h.animating), h.Look())
    ensures options != [] && raw ==>
              var start := StartIndex(defaultIndex, |options|);
              var e := Session(question, options, color, start, old(reader.input), reader.ending, patience);
              && Leads(old(h.Look()), AskSelect(e, h.animating), h.Look())
              && Answers(e, index, outcome)
    ensures options != [] && raw && patience > 0 && old(reader.input) != [] && old(reader.input)[0] == 0x0D ==>
              outcome.Confirmed? && index == if 0 <= defaultIndex < |options| then defaultIndex else 0
    ensures options != [] && !raw ==>
              var start := StartIndex(defaultIndex, |options|);
              && Leads(old(h.Look()), AskPlain(question, options, start, color, line, h.animating), h.Look())
              && outcome == (if line.chosen.Some? then Confirmed else ReadFailed)
              && (line.chosen.Some? ==> index == line.chosen.value)
  {
    if options == [] {
      ghost var v := h.Look();
      h.Suspend();
      ghost var v1 := h.Look();
      LeadsOne(v, Event.Suspend, v1);
      h.Resume();
      LeadsThen(v, [Event.Suspend], v1, Resumption(h.animating), h.Look());
      return 0, ReadFailed;
    }
    var start := StartIndex(defaultIndex, |options|);
    if raw {
      ghost var e := Session(question, options, color, start, reader.input, reader.ending, patience);
      index, outcome := AskOptions(h, question, options, color, start, reader, patience);
      if patience > 0 && e.input != [] && e.input[0] == 0x0D {
        EnterAnswers(e, index, outcome);
      }
    } else {
      AskNumbered(h, question, options, start, color, line);
      return if line.chosen.Some? then line.chosen.value else 0, if line.chosen.Some? then Confirmed else ReadFailed;
    }
  }

  /** The answer in the bytes typed: Enter and end of input confirm, Ctrl-C cancels, and a confirmed answer is
      as many options on as there are down arrows, less the up arrows. */
  predicate Answers(e: Session, index: nat, outcome: Outcome)
    requires e.Ok()
  {
    var (ks, tail) := Strokes(e.input);
    && outcome == (if e.patience <= |ks| then ContextDone else Verdict(tail, e.ending))
    && (outcome.Confirmed? ==> index == (e.start + Arrows(ks)) % |e.options|)
  }

  /** Enter alone answers with the option marked first. */
  lemma EnterAnswers(e: Session, index: nat, outcome: Outcome)
    requires e.Ok() && Answers(e, index, outcome) && e.patience > 0 && e.input != [] && e.input[0] == 0x0D
    ensures outcome.Confirmed? && index == e.start
  {
    SpelledOnce([], e.input);
    assert [] + e.input == e.input;
    DivModUnique(e.start, |e.options|, 0, e.start);
  }

  method AskOptions(
    h: Header, question: Text, options: seq<Choice>, color: bool, start: nat, reader: Reader, patience: nat)
    returns (index: nat, outcome: Outcome)
    requires Formed(h.Look()) && Printable(question) && AllOk(options) && start < |options|
    modifies h`bodyLines, h`col, h`pendingWrap, h`lastNL, h`quiet, h`running, h.file`screen, reader`input
    ensures Answers(Session(question, options, color, start, old(reader.input), reader.ending, patience), index,
                    outcome)
    ensures Leads(old(h.Look()),
                  AskSelect(Session(question, options, color, start, old(reader.input), reader.ending, patience),
                            h.animating), h.Look())
  {
    ghost var v := h.Look();
    ghost var e := Session(question, options, color, start, reader.input, reader.ending, patience);
    h.Suspend();
    ghost var v1 := h.Look();
    LeadsOne(v, Event.Suspend, v1);
    index, outcome := SelectAndReconcile(h, question, options, color, start, reader, patience);
    ghost var v2 := h.Look();
    Chosen(v1, e, v2, index, outcome);
    h.Resume();
    ThenResume(v, e, v1, v2, h.Look(), h.animating);
  }

  lemma ThenResume(v: View, e: Session, v1: View, v2: View, w: View, animating: bool)
    requires Formed(v) && Formed(v1) && e.Ok() && EventsOk([Event.Suspend]) && EventsOk([Select(e)])
    requires Leads(v, [Event.Suspend], v1) && Leads(v1, [Select(e)], v2) && Leads(v2, Resumption(animating), w)
    ensures Leads(v, AskSelect(e, animating), w)
  {
    LeadsThen(v1, [Select(e)], v2, Resumption(animating), w);
    LeadsThen(v, [Event.Suspend], v1, [Select(e)] + Resumption(animating), w);
  }

  /** A select prompt is one event, and a confirmed answer is where the arrows lead. */
  lemma Chosen(v: View, e: Session, w: View, index: nat, outcome: Outcome)
    requires Formed(v) && e.Ok() && Chooses(v, e, w, index, outcome)
    ensures Formed(w) && EventsOk([Select(e)]) && Leads(v, [Select(e)], w) && Happens(v, Select(e)) == w
    ensures Answers(e, index, outcome)
  {
    assert Selected(v, e) == w && Prompted(v.s, e).outcome == outcome;
    LeadsOne(v, Select(e), w);
    PlayedArrows(Feed(Feed(v.s, QuestionLine(e.question)), Block(e.options, e.start, e.color)),
                 OptionRows(v.s.width, e.options), e);
  }

  // ---------------------------------------------------------------------------------------
  // Whole runs
  // ---------------------------------------------------------------------------------------

  /** One event, carried out by the header. */
  method Handle(h: Header, e: Event)
    requires Formed(h.Look()) && e.Ok()
    modifies h, h.file
    ensures Leads(old(h.Look()), [e], h.Look()) && Formed(h.Look())
  {
    ghost var v := h.Look();
    if e.Print? || e.Echo? || e.Book? || e.Select? {
      HandleText(h, e);
      LeadsOne(v, e, h.Look());
    } else {
      HandleHeader(h, e);
      LeadsFormed(v, [e], h.Look());
    }
  }

  /** What appears below the header. */
  method HandleText(h: Header, e: Event)
    requires Formed(h.Look()) && e.Ok() && (e.Print? || e.Echo? || e.Book? || e.Select?)
    modifies h, h.file
    ensures h.Look() == Happens(old(h.Look()), e)
  {
    ghost var v := h.Look();
    match e
    case Print(b, n) => h.Write(b, n);
    case Echo(t, entered) => h.KernelEcho(t, entered);
    case Book(a) => h.NoteEchoedLine(a);
    case Select(s) =>
      var reader := new Reader(s.input, s.ending);
      var index, outcome := SelectAndReconcile(h, s.question, s.options, s.color, s.start, reader, s.patience);
      Chosen(v, s, h.Look(), index, outcome);
  }

  /** What happens to the header itself. */
  method HandleHeader(h: Header, e: Event)
    requires Formed(h.Look()) && e.Ok() && !(e.Print? || e.Echo? || e.Book? || e.Select?)
    modifies h, h.file
    ensures Leads(old(h.Look()), [e], h.Look())
  {
    ghost var v := h.Look();
    match e
    case Suspend =>
      h.Suspend();
      LeadsOne(v, e, h.Look());
    case Start =>
      h.StartTicker();
      LeadsOne(v, e, h.Look());
    case Reflow(s) =>
      h.Reflow(s);
      LeadsOne(v, e, h.Look());
    case Degrade =>
      h.Degrade();
      LeadsOne(v, e, h.Look());
    case Tick(readable) =>
      var painted := h.Tick(readable);
    case Latch => h.Latch();
    case Settle(readable) =>
      var painted := h.Stop(readable);
  }

  /** Any run: the header does what the events say. In an ordinary one every paint shows its frame on the
      header rows and changes nothing else, and the terminal is, outside those rows, cell for cell what a
      wizard whose header is never repainted would show, cursor and viewport included. */
  method RunWizard(h: Header, events: seq<Event>, ghost c: Course, ghost p: Phase)
    requires Formed(h.Look()) && Good(h.Look()) && Follows(h.Look(), c) && Steady(c, p) && EventsOk(events)
    modifies h, h.file
    ensures Leads(old(h.Look()), events, h.Look())
    ensures Ordinary(c, p, h.rows, events) ==>
              && OnlyHeaderRows(old(h.Look()), events) && h.home == old(h.home)
              && Good(h.Look()) && Follows(h.Look(), ReplayAll(c, events))
              && SameOutside(h.file.screen, ReplayAll(c, events).screen, old(h.home), h.rows)
  {
    ghost var v := h.Look();
    LeadsNowhere(v);
    for i := 0 to |events|
      invariant Formed(h.Look())
      invariant Leads(v, events[..i], h.Look())
    {
      ghost var u := h.Look();
      Handle(h, events[i]);
      assert events[..i] + [events[i]] == events[..i + 1];
      LeadsThen(v, events[..i], u, [events[i]], h.Look());
    }
    assert events[..|events|] == events;
    if Ordinary(c, p, v.l.rows, events) {
      SoundRun(v, c, p, events, h.Look());
    }
  }

  lemma SoundRun(v: View, c: Course, p: Phase, events: seq<Event>, w: View)
    requires Formed(v) && Good(v) && Follows(v, c) && Steady(c, p)
    requires EventsOk(events) && Ordinary(c, p, v.l.rows, events) && Leads(v, events, w)
    ensures OnlyHeaderRows(v, events) && w.l.home == v.l.home && w.l.rows == v.l.rows
    ensures Good(w) && Follows(w, ReplayAll(c, events))
    ensures SameOutside(w.s, ReplayAll(c, events).screen, v.l.home, v.l.rows)
  {
    assert HappensAll(v, events) == w;
    OrdinaryRunIsSound(v, c, p, events);
  }

  /** The whole wizard, from the header's first paint to its stop, in terms of the terminal it found. In an
      ordinary run the terminal is outside the header rows what it would be with a header painted once,
      and on a fresh line the booked rows are the cursor's true distance below the header, in the viewport
      or not. If the blocks fit and the terminal does not reflow, the header rows show the first frame, or the
      frame painted last. A plain run is ordinary. */
  method RunSetup(file: Tty, frames: seq<Frame>, color: bool, events: seq<Event>, readable: bool)
    returns (h: Header, ghost v: View)
    requires file.screen.Valid() && file.screen.AtMargin()
    requires frames != [] && frames[0] != [] && Uniform(frames, |frames[0]|) && AllFit(frames, file.screen.width)
    requires EventsOk(events + [Settle(readable)])
    modifies file
    ensures fresh(h) && h.file == file
    ensures var c := FirstCourse(old(file.screen), color, frames[0]);
            var es := events + [Settle(readable)];
            var d := ReplayAll(c, es);
            var home, n := old(file.screen).cur.row, |frames[0]|;
            Ordinary(c, Even, n, es) || PlainRun(Between(true), es) ==>
              && SameOutside(file.screen, d.screen, home, n)
              && (BlocksFit(c.screen, es) && !d.handled && d.onFreshLine ==>
                    file.screen.cur.row == home + n + h.bodyLines)
    ensures Opening(v, old(file.screen)) && v.art.frames == frames && v.art.color == color
    ensures var es := events + [Settle(readable)];
            BlocksFit(v.s, es)
            && (Ordinary(FirstCourse(old(file.screen), color, frames[0]), Even, |frames[0]|, es)
                || PlainRun(Between(true), es)) ==>
              Leaves(v, es, file.screen.cells)
  {
    h := StartSetupHeader(file, frames, color);
    ghost var c := FirstCourse(old(file.screen), color, frames[0]);
    v := h.Look();
    var es := events + [Settle(readable)];
    OpeningIsGood(v, old(file.screen));
    OpeningIsEven(c);
    RunWizard(h, es, c, Even);
    if PlainRun(Between(true), es) {
      PlainIsOrdinary(c, Even, Between(true), v.l.rows, es);
    }
    if Ordinary(c, Even, v.l.rows, es) && BlocksFit(c.screen, es) && !ReplayAll(c, es).handled {
      RunDistance(v, c, es, h.Look());
    }
    if Ordinary(c, Even, v.l.rows, es) && BlocksFit(v.s, es) {
      RunLeaves(v, old(file.screen), es, h.Look());
    }
  }

  lemma RunLeaves(v: View, s: Screen, events: seq<Event>, w: View)
    requires Opening(v, s) && EventsOk(events) && BlocksFit(v.s, events) && Leads(v, events, w)
    requires Ordinary(FirstCourse(s, v.art.color, v.art.frames[0]), Even, v.l.rows, events)
    ensures Leaves(v, events, w.s.cells)
  {
    assert HappensAll(v, events) == w;
    OrdinaryRunShows(v, s, events);
  }

  lemma RunDistance(v: View, c: Course, events: seq<Event>, w: View)
    requires Formed(v) && Good(v) && Follows(v, c) && Steady(c, Even) && Synced(c.screen, v.l.home, v.l.rows, c.truth)
    requires EventsOk(events) && Ordinary(c, Even, v.l.rows, events) && BlocksFit(c.screen, events)
    requires !c.reflowed && !ReplayAll(c, events).handled && Leads(v, events, w)
    ensures ReplayAll(c, events).onFreshLine ==> w.s.cur.row == v.l.home + v.l.rows + w.l.body
  {
    assert HappensAll(v, events) == w;
    DistanceIsBooked(v, c, Even, events);
    OrdinaryRunIsSound(v, c, Even, events);
  }
}
