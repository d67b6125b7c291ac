/**
 The runs the header was made for, told by their events: writes of whole tokens, answers booked as
 they were typed, select prompts on a fresh line, ticks. And how far one may stray from them: the
 rows a line takes decide, one completed line at a time.
 */
module OrdinaryRuns {
  import opened Arithmetic
  import opened Utf8
  import opened Terminal
  import opened RowCount
  import opened SelectBlock
  import opened SelectSession
  import opened HeaderPaint
  import opened Accounting
  import opened HeaderEvents
  import opened HeaderRun
  import opened UnbookedEcho

  // ---------------------------------------------------------------------------------------
  // One line at a time
  // ---------------------------------------------------------------------------------------

  /** Where the header believes the line to be and where it is. Below row `base` the header has counted
      one open line of `counted` characters; the screen shows `above` rows of lines that are over and an
      open line of `shown` characters. */
  datatype Phase = Even | Uneven(base: int, counted: nat, above: nat, shown: nat)

  /** The counter on a line of `k` characters that began on row `base`. */
  function Reach(w: int, base: int, k: nat): (t: Tally) {
    After(k, w).(rows := base + After(k, w).rows)
  }

  predicate Apart(w: int, booked: Tally, truth: Tally, base: int, counted: nat, above: nat, shown: nat) {
    booked == Reach(w, base, counted) && truth == Reach(w, base + above, shown)
  }

  /** The course is in that phase. An uneven line is open, so that no tick paints. */
  predicate Within(c: Course, p: Phase) {
    match p
    case Even => c.booked == c.truth && Sane(c.screen.width, c.truth) && (c.onFreshLine ==> c.truth.col == 0)
    case Uneven(base, k, a, m) => !c.onFreshLine && Apart(c.screen.width, c.booked, c.truth, base, k, a, m)
  }

  /** An even line is one of which header and screen have the same characters. */
  function Unfolded(c: Course, p: Phase): (u: Phase)
    ensures u.Uneven?
  {
    if p.Even? then Uneven(c.truth.rows, Max(0, c.truth.col), 0, Max(0, c.truth.col)) else p
  }

  /** A line end printed after `x` more characters: the lines on the screen take the rows of the one
      the header counts. */
  predicate LineIsEven(w: int, p: Phase, x: nat)
    requires p.Uneven?
  {
    p.above + LineRows(p.shown + x, w) == LineRows(p.counted + x, w)
  }

  /** An answer of `x` characters booked: so do the lines typed so far, the last of them ended. */
  predicate AnswerIsEven(w: int, p: Phase, x: nat)
    requires p.Uneven?
  {
    p.shown == 0 && p.above == LineRows(p.counted + x, w)
  }

  /** A select question of `x` characters: its line, which is measured from the margin, takes the rows that
      it takes from where it is asked. */
  predicate QuestionIsEven(w: int, p: Phase, x: nat)
    requires p.Uneven?
  {
    p.above + LineRows(p.shown + 2 + x, w) == LineRows(p.counted, w) - 1 + LineRows(2 + x, w)
  }

  /** Nothing typed on a fresh line, and every line that the header completes takes the rows it counts for
      it. A tick that cannot read the height needs the header in the viewport. */
  predicate Allowed(c: Course, p: Phase, rows: nat, e: Event)
    requires e.Ok()
  {
    var w, u := c.screen.width, Unfolded(c, p);
    match e
    case Print(b, n) =>
      var ts := Tokens(b[..n]);
      var i := FirstNewline(ts);
      i < |ts| ==> LineIsEven(w, u, Visible(ts[..i]))
    case Echo(t, entered) => (t == [] && !entered) || !c.onFreshLine
    case Book(a) => AnswerIsEven(w, u, |a|)
    case Select(s) => QuestionIsEven(w, u, |s.question|)
    case Tick(readable) => readable || rows + c.booked.rows < c.screen.height
    case Settle(readable) => readable || rows + c.booked.rows < c.screen.height
    case _ => true
  }

  function NextPhase(c: Course, p: Phase, e: Event): (q: Phase)
    requires e.Ok()
  {
    var w, u := c.screen.width, Unfolded(c, p);
    match e
    case Print(b, n) =>
      var ts := Tokens(b[..n]);
      if p.Even? || FirstNewline(ts) < |ts| then Even
      else p.(counted := p.counted + Visible(ts), shown := p.shown + Visible(ts))
    case Echo(t, entered) =>
      if t == [] && !entered then p
      else if entered then u.(above := u.above + LineRows(u.shown + |t|, w), shown := 0)
      else u.(shown := u.shown + |t|)
    case Book(_) => Even
    case Select(_) => Even
    case _ => p
  }

  // ---------------------------------------------------------------------------------------
  // What one event does to the line
  // ---------------------------------------------------------------------------------------

  lemma ReachStretch(w: int, base: int, k: nat, ts: seq<Token>)
    requires Unbroken(ts)
    ensures Account(w, Reach(w, base, k), ts) == Reach(w, base, k + Visible(ts))
  {
    AfterLine(k, w, ts);
    AccountFromZero(w, After(k, w), ts);
    AccountFromZero(w, Reach(w, base, k), ts);
  }

  lemma ReachLine(w: int, base: int, k: nat, line: seq<Token>)
    requires Unbroken(line)
    ensures Account(w, Reach(w, base, k), line + [Newline]) == Tally(0, base + LineRows(k + Visible(line), w), false)
  {
    ReachStretch(w, base, k, line);
    CeilingOfLine(k + Visible(line), w);
    AccountConcat(w, Reach(w, base, k), line, [Newline]);
  }

  lemma ReachIsSane(w: int, base: int, k: nat)
    ensures Sane(w, Reach(w, base, k)) && Reach(w, base, k).rows == base + LineRows(k, w) - 1
    ensures Reach(w, base, k) == Tally(0, base, false) <==> k == 0
    ensures Reach(w, base, k).col == 0 ==> k == 0
  {
    CeilingOfLine(k, w);
  }

  lemma UnfoldedIsApart(c: Course, p: Phase)
    requires Within(c, p)
    ensures var u := Unfolded(c, p);
            Apart(c.screen.width, c.booked, c.truth, u.base, u.counted, u.above, u.shown)
    ensures Sane(c.screen.width, c.truth)
  {
    if p.Even? {
      SaneIsAfter(c.screen.width, c.truth);
      FirstRow(c.truth.col, c.screen.width);
    } else {
      ReachIsSane(c.screen.width, p.base + p.above, p.shown);
    }
  }

  /** The same text from two rows of the margin. */
  lemma GapIsKept(w: int, x: int, y: int, rest: seq<Token>)
    ensures Account(w, Tally(0, x, false), rest) == Account(w, Tally(0, y, false), rest) <==> x == y
  {
    AccountFromZero(w, Tally(0, x, false), rest);
    AccountFromZero(w, Tally(0, y, false), rest);
  }

  lemma LineThenRest(w: int, base: int, k: nat, line: seq<Token>, rest: seq<Token>, rows: int)
    requires Unbroken(line) && rows == LineRows(k + Visible(line), w)
    ensures Account(w, Reach(w, base, k), line + [Newline] + rest) == Account(w, Tally(0, base + rows, false), rest)
  {
    ReachLine(w, base, k, line);
    AccountConcat(w, Reach(w, base, k), line + [Newline], rest);
  }

  /** A printed line end sets the count right if and only if the lines take the rows of the one counted. */
  lemma LineEvensIff(w: int, booked: Tally, truth: Tally, p: Phase, line: seq<Token>, rest: seq<Token>)
    requires p.Uneven? && Apart(w, booked, truth, p.base, p.counted, p.above, p.shown) && Unbroken(line)
    ensures var ts := line + [Newline] + rest;
            Account(w, booked, ts) == Account(w, truth, ts) <==> LineIsEven(w, p, Visible(line))
  {
    var x, y := LineRows(p.counted + Visible(line), w), LineRows(p.shown + Visible(line), w);
    LineThenRest(w, p.base, p.counted, line, rest, x);
    LineThenRest(w, p.base + p.above, p.shown, line, rest, y);
    GapIsKept(w, p.base + x, p.base + p.above + y, rest);
  }

  lemma Split(ts: seq<Token>, i: nat)
    requires i < |ts| && ts[i] == Newline
    ensures ts == ts[..i] + [Newline] + ts[i + 1..]
  {
  }

  /** An answer booked sets the count right if and only if what was typed ended and takes the rows counted
      for the answer. */
  lemma AnswerEvensIff(w: int, booked: Tally, truth: Tally, p: Phase, a: Text)
    requires p.Uneven? && Apart(w, booked, truth, p.base, p.counted, p.above, p.shown)
    ensures Account(w, booked, Typed(a, true)) == truth <==> AnswerIsEven(w, p, |a|)
  {
    VisibleOfRunes(a);
    ReachLine(w, p.base, p.counted, Runes(a));
    ReachIsSane(w, p.base + p.above, p.shown);
  }

  /** A select prompt sets the count right if and only if its question takes the rows measured for it. */
  lemma QuestionEvensIff(c: Course, p: Phase, e: Session)
    requires p.Uneven? && Apart(c.screen.width, c.booked, c.truth, p.base, p.counted, p.above, p.shown) && e.Ok()
    ensures var d := Replay(c, Select(e));
            && (d.booked == d.truth <==> QuestionIsEven(c.screen.width, p, |e.question|))
            && d.booked == Tally(0, d.booked.rows, false)
  {
    var w, x := c.screen.width, 2 + |e.question|;
    ReachIsSane(w, p.base, p.counted);
    FromThere(w, p.base + p.above, p.shown, x);
    SelectCounts(c, e, LineRows(x, w), LineRows(c.truth.col + 2 + |e.question|, w));
    assert p.shown + x == p.shown + 2 + |e.question|;
  }

  /** The rows of a line do not depend on how it is cut. */
  lemma FromThere(w: int, base: int, k: nat, x: nat)
    ensures var t := Reach(w, base, k); Sane(w, t) && t.rows + LineRows(t.col + x, w) == base + LineRows(k + x, w)
  {
    ReachIsSane(w, base, k);
    VisibleChars(x);
    LineFrom(w, Reach(w, base, k), Chars(x));
    ReachLine(w, base, k, Chars(x));
  }

  lemma EchoIsApart(w: int, booked: Tally, truth: Tally, p: Phase, t: Text, entered: bool)
    requires p.Uneven? && Apart(w, booked, truth, p.base, p.counted, p.above, p.shown)
    ensures var z := Account(w, truth, Typed(t, entered));
            if entered then Apart(w, booked, z, p.base, p.counted, p.above + LineRows(p.shown + |t|, w), 0)
            else Apart(w, booked, z, p.base, p.counted, p.above, p.shown + |t|)
  {
    VisibleOfRunes(t);
    if entered {
      ReachLine(w, p.base + p.above, p.shown, Runes(t));
      ReachIsSane(w, p.base + p.above + LineRows(p.shown + |t|, w), 0);
    } else {
      assert Typed(t, false) == Runes(t);
      ReachStretch(w, p.base + p.above, p.shown, Runes(t));
    }
  }

  /** A write that ends a byte string in a newline ends on the margin. */
  lemma FreshIsMargin(w: int, t: Tally, bytes: seq<byte>)
    requires bytes != [] && AllComplete(Tokens(bytes)) && bytes[|bytes| - 1] == NL
    ensures var ts := Tokens(bytes); Account(w, t, ts).col == 0 && FirstNewline(ts) < |ts|
  {
    LastNewline(bytes);
    NewlineEndsAtMargin(w, t, Tokens(bytes));
  }

  /** The course after a write of those tokens. */
  predicate Writes(c: Course, d: Course, ts: seq<Token>) {
    && d.screen.width == c.screen.width && d.booked == Account(c.screen.width, c.booked, ts)
    && d.truth == Account(c.screen.width, c.truth, ts)
    && (d.onFreshLine ==> (ts == [] && c.onFreshLine) || (d.truth.col == 0 && FirstNewline(ts) < |ts|))
  }

  lemma PrintWrites(c: Course, e: Event)
    requires e.Ok() && e.Print?
    ensures Writes(c, Replay(c, e), Tokens(e.bytes[..e.accepted]))
  {
    var bytes := e.bytes[..e.accepted];
    FeedKeepsSize(c.screen, Tokens(bytes));
    if e.accepted > 0 && e.bytes[e.accepted - 1] == NL {
      FreshIsMargin(c.screen.width, c.truth, bytes);
    }
  }

  lemma EvenWrite(c: Course, d: Course, ts: seq<Token>)
    requires Within(c, Even) && Writes(c, d, ts)
    ensures Within(d, Even)
  {
    SaneKept(c.screen.width, c.truth, ts);
  }

  lemma UnevenWrite(c: Course, d: Course, p: Phase, ts: seq<Token>, i: nat)
    requires p.Uneven? && Within(c, p) && Writes(c, d, ts) && i == FirstNewline(ts)
    requires i < |ts| ==> LineIsEven(c.screen.width, p, Visible(ts[..i]))
    ensures Within(d, if i < |ts| then Even
                      else p.(counted := p.counted + Visible(ts), shown := p.shown + Visible(ts)))
  {
    var w := c.screen.width;
    if i < |ts| {
      Split(ts, i);
      LineEvensIff(w, c.booked, c.truth, p, ts[..i], ts[i + 1..]);
      UnfoldedIsApart(c, p);
      SaneKept(w, c.truth, ts);
    } else {
      assert ts[..i] == ts;
      ReachStretch(w, p.base, p.counted, ts);
      ReachStretch(w, p.base + p.above, p.shown, ts);
    }
  }

  lemma PrintStays(c: Course, p: Phase, rows: nat, e: Event)
    requires Within(c, p) && e.Ok() && e.Print? && Allowed(c, p, rows, e)
    ensures Within(Replay(c, e), NextPhase(c, p, e))
  {
    var ts := Tokens(e.bytes[..e.accepted]);
    PrintWrites(c, e);
    if p.Even? {
      EvenWrite(c, Replay(c, e), ts);
    } else {
      UnevenWrite(c, Replay(c, e), p, ts, FirstNewline(ts));
    }
  }

  lemma EchoStays(c: Course, p: Phase, rows: nat, e: Event)
    requires Within(c, p) && e.Ok() && e.Echo? && Allowed(c, p, rows, e)
    ensures Within(Replay(c, e), NextPhase(c, p, e))
  {
    if e.typed == [] && !e.entered {
      EndOfInputIsBenign(c);
    } else {
      UnfoldedIsApart(c, p);
      FeedKeepsSize(c.screen, Typed(e.typed, e.entered));
      EchoIsApart(c.screen.width, c.booked, c.truth, Unfolded(c, p), e.typed, e.entered);
    }
  }

  lemma BookStays(c: Course, p: Phase, rows: nat, e: Event)
    requires Within(c, p) && e.Ok() && e.Book? && Allowed(c, p, rows, e)
    ensures Within(Replay(c, e), Even)
  {
    UnfoldedIsApart(c, p);
    var u := Unfolded(c, p);
    AnswerEvensIff(c.screen.width, c.booked, c.truth, u, e.answer);
    ReachIsSane(c.screen.width, u.base + u.above, u.shown);
  }

  lemma SelectStays(c: Course, p: Phase, rows: nat, e: Event)
    requires Within(c, p) && e.Ok() && e.Select? && Allowed(c, p, rows, e)
    ensures Within(Replay(c, e), Even)
  {
    UnfoldedIsApart(c, p);
    QuestionEvensIff(c, Unfolded(c, p), e.session);
    PromptedSize(c.screen, e.session);
  }

  /** An allowed event keeps the course in its phases; until the terminal reflows. */
  lemma StepStays(c: Course, p: Phase, rows: nat, e: Event)
    requires Within(c, p) && e.Ok() && !e.Reflow? && Allowed(c, p, rows, e)
    ensures Within(Replay(c, e), NextPhase(c, p, e))
  {
    match e
    case Print(_, _) => PrintStays(c, p, rows, e);
    case Echo(_, _) => EchoStays(c, p, rows, e);
    case Book(_) => BookStays(c, p, rows, e);
    case Select(_) => SelectStays(c, p, rows, e);
    case _ =>
  }

  /** The header takes a line to be over. */
  predicate Completes(e: Event)
    requires e.Ok()
  {
    match e
    case Print(b, n) => FirstNewline(Tokens(b[..n])) < |Tokens(b[..n])|
    case Book(_) => true
    case Select(_) => true
    case _ => false
  }

  /** The conditions are exact: a completed line leaves the count right if and only if it is allowed. */
  lemma CompletedLineIff(c: Course, p: Phase, rows: nat, e: Event)
    requires Within(c, p) && e.Ok() && Completes(e)
    ensures Replay(c, e).booked == Replay(c, e).truth <==> Allowed(c, p, rows, e)
  {
    var u := Unfolded(c, p);
    UnfoldedIsApart(c, p);
    match e
    case Print(b, n) =>
      var ts := Tokens(b[..n]);
      var i := FirstNewline(ts);
      Split(ts, i);
      LineEvensIff(c.screen.width, c.booked, c.truth, u, ts[..i], ts[i + 1..]);
    case Book(a) => AnswerEvensIff(c.screen.width, c.booked, c.truth, u, a);
    case Select(s) => QuestionEvensIff(c, u, s);
  }

  // ---------------------------------------------------------------------------------------
  // Ordinary runs
  // ---------------------------------------------------------------------------------------

  /** Until the terminal reflows every event is allowed; from then on nothing ticks until a handler has
      finished; and then everything may happen. */
  predicate Ordinary(c: Course, p: Phase, rows: nat, events: seq<Event>)
    requires EventsOk(events)
    decreases |events|
  {
    events == [] ||
    (&& (c.handled || if c.reflowed then !events[0].Tick? && !events[0].Settle? else Allowed(c, p, rows, events[0]))
     && Ordinary(Replay(c, events[0]), NextPhase(c, p, events[0]), rows, events[1..]))
  }

  function PhaseAfter(c: Course, p: Phase, events: seq<Event>): (q: Phase)
    requires EventsOk(events)
    decreases |events|
  {
    if events == [] then p else PhaseAfter(Replay(c, events[0]), NextPhase(c, p, events[0]), events[1..])
  }

  /** In its phase, as long as there was no resize. */
  predicate Steady(c: Course, p: Phase) {
    c.handled || c.reflowed || Within(c, p)
  }

  /** In an ordinary run the count is right at every tick that could paint. */
  lemma {:induction false} OrdinaryIsReckoned(c: Course, p: Phase, rows: nat, events: seq<Event>)
    requires Steady(c, p) && EventsOk(events) && Ordinary(c, p, rows, events)
    ensures AllReckoned(c, rows, events) && Steady(ReplayAll(c, events), PhaseAfter(c, p, events))
    decreases |events|
  {
    if events != [] {
      var e := events[0];
      if !c.handled && !c.reflowed && !e.Reflow? {
        StepStays(c, p, rows, e);
      }
      OrdinaryIsReckoned(Replay(c, e), NextPhase(c, p, e), rows, events[1..]);
    }
  }

  /** Every paint of an ordinary run shows its frame on the header rows and changes nothing else, and the
      terminal is, outside the header rows, what it would be with a header that is never repainted. */
  lemma OrdinaryRunIsSound(v: View, c: Course, p: Phase, events: seq<Event>)
    requires Formed(v) && Good(v) && Follows(v, c) && Steady(c, p)
    requires EventsOk(events) && Ordinary(c, p, v.l.rows, events)
    ensures Lands(v, events) && OnlyHeaderRows(v, events)
    ensures var w, d := HappensAll(v, events), ReplayAll(c, events);
            && Formed(w) && Good(w) && Follows(w, d) && w.l.home == v.l.home && w.l.rows == v.l.rows
            && SameOutside(w.s, d.screen, v.l.home, v.l.rows)
  {
    OrdinaryIsReckoned(c, p, v.l.rows, events);
    ReckonedRunsLand(v, c, events);
    RunIsSoundIff(v, c, events);
    OpenGood(HappensAll(v, events));
  }

  // ---------------------------------------------------------------------------------------
  // The true distance
  // ---------------------------------------------------------------------------------------

  /** The terminal does not reflow, and every option block is shorter than the viewport. */
  predicate BlocksFit(s: Screen, events: seq<Event>) {
    forall i | 0 <= i < |events| ::
      && !events[i].Reflow?
      && (events[i].Select? ==> OptionRows(s.width, events[i].session.options) < s.height)
  }

  lemma ReplaySize(c: Course, e: Event)
    requires e.Ok() && !e.Reflow?
    ensures Replay(c, e).screen.width == c.screen.width && Replay(c, e).screen.height == c.screen.height
  {
    match e
    case Print(b, n) => FeedKeepsSize(c.screen, Tokens(b[..n]));
    case Echo(t, entered) => FeedKeepsSize(c.screen, Typed(t, entered));
    case Select(s) => PromptedSize(c.screen, s);
    case _ =>
  }

  lemma ReplayStaysSynced(c: Course, home: int, rows: nat, e: Event)
    requires Synced(c.screen, home, rows, c.truth) && e.Ok() && BlocksFit(c.screen, [e])
    ensures var d := Replay(c, e);
            && Synced(d.screen, home, rows, d.truth) && d.screen.width == c.screen.width
            && d.screen.height == c.screen.height && d.reflowed == c.reflowed
  {
    assert e == [e][0];
    match e
    case Print(b, n) => TextSyncs(c, home, rows, Tokens(b[..n]));
    case Echo(t, entered) =>
      TypedIsText(t, entered);
      TextSyncs(c, home, rows, Typed(t, entered));
    case Select(s) => SelectSyncs(c, home, rows, s);
    case _ =>
  }

  lemma TextSyncs(c: Course, home: int, rows: nat, ts: seq<Token>)
    requires Synced(c.screen, home, rows, c.truth) && AllInky(ts)
    ensures var s := Feed(c.screen, ts);
            && Synced(s, home, rows, Account(c.screen.width, c.truth, ts))
            && s.width == c.screen.width && s.height == c.screen.height
  {
    TextStaysSynced(c.screen, home, rows, c.truth, ts);
    FeedKeepsSize(c.screen, ts);
  }

  lemma SelectSyncs(c: Course, home: int, rows: nat, e: Session)
    requires Synced(c.screen, home, rows, c.truth) && e.Ok() && OptionRows(c.screen.width, e.options) < c.screen.height
    ensures var d := Replay(c, Select(e));
            && Synced(d.screen, home, rows, d.truth) && d.screen.width == c.screen.width
            && d.screen.height == c.screen.height
  {
    var r := Prompted(c.screen, e);
    PromptedIsTranscript(c.screen, e);
    SelectTranscriptInky(e.question, e.options, r.shown, e.color, r.outcome.Confirmed?);
    TextSyncs(c, home, rows, SelectTranscript(e.question, e.options, r.shown, e.color, r.outcome.Confirmed?));
  }

  /** `truth` stays the cursor's place below the header, in the viewport or not. */
  lemma {:induction false} TruthStaysTrue(c: Course, home: int, rows: nat, events: seq<Event>)
    requires Synced(c.screen, home, rows, c.truth) && EventsOk(events) && BlocksFit(c.screen, events)
    ensures var d := ReplayAll(c, events); Synced(d.screen, home, rows, d.truth) && d.reflowed == c.reflowed
    decreases |events|
  {
    if events != [] {
      ReplayStaysSynced(c, home, rows, events[0]);
      TruthStaysTrue(Replay(c, events[0]), home, rows, events[1..]);
    }
  }

  /** After an ordinary run whose line is even, as every fresh line is, the booked rows are the cursor's
      true distance below the header, whether or not the header is still in the viewport. */
  lemma DistanceIsBooked(v: View, c: Course, p: Phase, events: seq<Event>)
    requires Formed(v) && Good(v) && Follows(v, c) && Steady(c, p) && Synced(c.screen, v.l.home, v.l.rows, c.truth)
    requires EventsOk(events) && Ordinary(c, p, v.l.rows, events) && BlocksFit(c.screen, events)
    requires !c.reflowed && !ReplayAll(c, events).handled
    ensures var w := HappensAll(v, events);
            && (w.l.lastNL ==> PhaseAfter(c, p, events).Even?)
            && (PhaseAfter(c, p, events).Even? ==> Depth(w.s, v.l.home, v.l.rows) == w.l.body)
  {
    OrdinaryRunIsSound(v, c, p, events);
    OrdinaryIsReckoned(c, p, v.l.rows, events);
    TruthStaysTrue(c, v.l.home, v.l.rows, events);
    QuietHasSameShape(HappensAll(v, events));
  }

  // ---------------------------------------------------------------------------------------
  // Plain runs: no condition left
  // ---------------------------------------------------------------------------------------

  /** Between two things, on a fresh line or an open one, or while an answer is being typed. */
  datatype Moment = Between(ended: bool) | Typing(typed: Text, entered: bool)

  /** Text of any kind; answers typed behind a question and booked as they were typed; select prompts on a
      fresh line; suspensions, starts, ticks and the end, with a height that can be read. */
  predicate Plainly(m: Moment, e: Event) {
    match e
    case Print(_, _) => m.Between?
    case Echo(t, entered) => (t == [] && !entered) || m == Between(false) || (m.Typing? && !m.entered)
    case Book(a) => m == Typing(a, true)
    case Select(_) => m == Between(true)
    case Suspend => true
    case Start => true
    case Tick(readable) => readable
    case Settle(readable) => readable
    case _ => false
  }

  function NextMoment(m: Moment, e: Event): (n: Moment)
    requires e.Ok()
  {
    match e
    case Print(b, n) => if n == 0 then m else Between(b[n - 1] == NL)
    case Echo(t, entered) =>
      if t == [] && !entered then m else Typing((if m.Typing? then m.typed else []) + t, entered)
    case Book(_) => Between(true)
    case Select(_) => Between(true)
    case _ => m
  }

  predicate PlainRun(m: Moment, events: seq<Event>)
    requires EventsOk(events)
    decreases |events|
  {
    events == [] || (Plainly(m, events[0]) && PlainRun(NextMoment(m, events[0]), events[1..]))
  }

  function MomentAfter(m: Moment, events: seq<Event>): (n: Moment)
    requires EventsOk(events)
    decreases |events|
  {
    if events == [] then m else MomentAfter(NextMoment(m, events[0]), events[1..])
  }

  lemma {:induction false} PlainConcat(m: Moment, a: seq<Event>, b: seq<Event>)
    requires EventsOk(a) && EventsOk(b)
    ensures EventsOk(a + b) && MomentAfter(m, a + b) == MomentAfter(MomentAfter(m, a), b)
    ensures PlainRun(m, a + b) <==> PlainRun(m, a) && PlainRun(MomentAfter(m, a), b)
    decreases |a|
  {
    if a == [] {
      assert a + b == b;
    } else {
      assert (a + b)[1..] == a[1..] + b;
      PlainConcat(NextMoment(m, a[0]), a[1..], b);
    }
  }

  lemma PlainOne(m: Moment, e: Event)
    requires e.Ok() && Plainly(m, e)
    ensures EventsOk([e]) && PlainRun(m, [e]) && MomentAfter(m, [e]) == NextMoment(m, e)
  {
    assert [e][1..] == [];
    assert PlainRun(NextMoment(m, e), []) && MomentAfter(NextMoment(m, e), []) == NextMoment(m, e);
  }

  lemma ResumingIsPlain(m: Moment, animating: bool)
    ensures var es := Resumption(animating); EventsOk(es) && PlainRun(m, es) && MomentAfter(m, es) == m
  {
    if animating {
      PlainOne(m, Start);
    }
  }

  lemma QuestionStaysOpen(question: Text)
    requires Printable(question) && question != []
    ensures var b := Encode(Runes(question)); b != [] && b[|b| - 1] != NL
  {
    var ts := Runes(question);
    LastByteOfToken(ts[|ts| - 1]);
    EncodedLast(ts);
  }

  lemma ReadingIsPlain(ended: bool, question: Text, typed: Text)
    requires Printable(question) && Printable(typed) && question != []
    ensures var es := ReadLine(question, typed, typed, true);
            EventsOk(es) && PlainRun(Between(ended), es) && MomentAfter(Between(ended), es) == Between(true)
  {
    var ask, echo, book := PrintAll(Runes(question)), Echo(typed, true), Book(typed);
    PrintAllOk(Runes(question));
    QuestionStaysOpen(question);
    PlainOne(Between(ended), ask);
    PlainOne(Between(false), echo);
    assert [] + typed == typed;
    PlainOne(Typing(typed, true), book);
    PlainConcat(Between(ended), [ask], [echo]);
    PlainConcat(Between(ended), [ask] + [echo], [book]);
    InARow(ask, echo, [book]);
  }

  /** A typed question whose answer has no blanks around it is plain, wherever it is asked, and leaves a
      fresh line. */
  lemma AskIsPlain(ended: bool, question: Text, typed: Text, animating: bool)
    requires Printable(question) && Printable(typed) && question != []
    ensures var es := AskLine(question, typed, typed, true, animating);
            EventsOk(es) && PlainRun(Between(ended), es) && MomentAfter(Between(ended), es) == Between(true)
  {
    var reading := ReadLine(question, typed, typed, true);
    PlainOne(Between(ended), Suspend);
    ReadingIsPlain(ended, question, typed);
    ResumingIsPlain(Between(true), animating);
    PlainConcat(Between(ended), reading, Resumption(animating));
    PlainConcat(Between(ended), [Suspend], reading + Resumption(animating));
  }

  /** So is a select question on a fresh line. */
  lemma ChooseIsPlain(e: Session, animating: bool)
    requires e.Ok()
    ensures var es := AskSelect(e, animating);
            EventsOk(es) && PlainRun(Between(true), es) && MomentAfter(Between(true), es) == Between(true)
  {
    PlainOne(Between(true), Suspend);
    PlainOne(Between(true), Select(e));
    ResumingIsPlain(Between(true), animating);
    PlainConcat(Between(true), [Select(e)], Resumption(animating));
    PlainConcat(Between(true), [Suspend], [Select(e)] + Resumption(animating));
  }

  /** The moment on the course. */
  predicate Meets(c: Course, p: Phase, m: Moment) {
    Within(c, p) && !c.reflowed && !c.handled && Reaches(c, p, m)
  }

  predicate Reaches(c: Course, p: Phase, m: Moment) {
    match m
    case Between(ended) => p.Even? && c.onFreshLine == ended
    case Typing(t, true) => p.Uneven? && p.shown == 0 && p.above == LineRows(p.counted + |t|, c.screen.width)
    case Typing(t, false) => p.Uneven? && p.above == 0 && p.shown == p.counted + |t|
  }

  lemma PlainIsAllowed(c: Course, p: Phase, m: Moment, rows: nat, e: Event)
    requires Meets(c, p, m) && e.Ok() && Plainly(m, e)
    ensures Allowed(c, p, rows, e)
  {
  }

  lemma PlainGoesOn(c: Course, p: Phase, m: Moment, rows: nat, e: Event)
    requires Meets(c, p, m) && e.Ok() && Plainly(m, e)
    ensures Meets(Replay(c, e), NextPhase(c, p, e), NextMoment(m, e))
  {
    PlainIsAllowed(c, p, m, rows, e);
    StepStays(c, p, rows, e);
    match e
    case Echo(t, entered) => FeedKeepsSize(c.screen, Typed(t, entered));
    case _ =>
  }

  /** Every plain run is ordinary. */
  lemma {:induction false} PlainIsOrdinary(c: Course, p: Phase, m: Moment, rows: nat, events: seq<Event>)
    requires Meets(c, p, m) && EventsOk(events) && PlainRun(m, events)
    ensures Ordinary(c, p, rows, events)
    ensures Meets(ReplayAll(c, events), PhaseAfter(c, p, events), MomentAfter(m, events))
    decreases |events|
  {
    if events != [] {
      PlainIsAllowed(c, p, m, rows, events[0]);
      PlainGoesOn(c, p, m, rows, events[0]);
      PlainIsOrdinary(Replay(c, events[0]), NextPhase(c, p, events[0]), NextMoment(m, events[0]), rows, events[1..]);
    }
  }

  /** A plain run from the header's first paint on, with no condition left: every paint shows its frame on
      the header rows and changes nothing else, and the terminal is, outside those rows, what it would be
      with a header painted once. */
  lemma PlainRunIsSound(v: View, s: Screen, events: seq<Event>)
    requires Opening(v, s) && EventsOk(events) && PlainRun(Between(true), events)
    ensures OnlyHeaderRows(v, events) && Lands(v, events)
    ensures var d := ReplayAll(FirstCourse(s, v.art.color, v.art.frames[0]), events);
            SameOutside(HappensAll(v, events).s, d.screen, v.l.home, v.l.rows)
  {
    var c := FirstCourse(s, v.art.color, v.art.frames[0]);
    OpeningIsGood(v, s);
    OpeningIsEven(c);
    PlainIsOrdinary(c, Even, Between(true), v.l.rows, events);
    OrdinaryRunIsSound(v, c, Even, events);
  }

  lemma OpeningIsEven(c: Course)
    requires c.booked == c.truth == Tally(0, 1, false) && c.onFreshLine && !c.reflowed && !c.handled
    requires c.screen.Valid()
    ensures Within(c, Even) && Steady(c, Even) && Meets(c, Even, Between(true))
  {
  }

  /** And whenever no answer is being typed, the booked rows are the cursor's true distance below the
      header, in the viewport or not; provided that every option block was shorter than the viewport. */
  lemma PlainDistanceIsBooked(v: View, s: Screen, events: seq<Event>)
    requires Opening(v, s) && EventsOk(events) && PlainRun(Between(true), events) && BlocksFit(v.s, events)
    requires MomentAfter(Between(true), events).Between?
    ensures var w := HappensAll(v, events); Depth(w.s, v.l.home, v.l.rows) == w.l.body
  {
    var c := FirstCourse(s, v.art.color, v.art.frames[0]);
    OpeningIsGood(v, s);
    OpeningIsEven(c);
    PlainIsOrdinary(c, Even, Between(true), v.l.rows, events);
    DistanceIsBooked(v, c, Even, events);
  }
}
