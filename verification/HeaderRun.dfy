/**
 Whole runs under the header, against a wizard whose header is never repainted.

 The course of that wizard keeps two tallies: `booked`, what the header counts, and `truth`, what is
 on the screen. A run is sound exactly as long as the two agree whenever the header paints.
 */
module HeaderRun {
  import opened Terminal
  import opened RowCount
  import opened SelectBlock
  import opened SelectSession
  import opened HeaderPaint
  import opened Accounting
  import opened HeaderEvents
  import opened Sway

  /** A wizard whose header is never repainted: its terminal, the rows and column the header books and
      those that are true, whether the last byte printed ended a line, whether the terminal ever reflowed,
      and whether a resize handler has finished. */
  datatype Course = Course(
    screen: Screen, booked: Tally, truth: Tally, onFreshLine: bool, reflowed: bool, handled: bool)

  /** What one event does to it. Nothing here depends on the header. */
  function Replay(c: Course, e: Event): (r: Course)
    requires e.Ok()
  {
    var width := c.screen.width;
    match e
    case Print(b, n) =>
      var ts := Tokens(b[..n]);
      c.(screen := Feed(c.screen, ts), booked := Account(width, c.booked, ts), truth := Account(width, c.truth, ts),
         onFreshLine := if n == 0 then c.onFreshLine else b[n - 1] == NL)
    case Echo(t, entered) =>
      var ts := Typed(t, entered);
      c.(screen := Feed(c.screen, ts), truth := Account(width, c.truth, ts))
    case Book(a) => c.(booked := Account(width, c.booked, Typed(a, true)), onFreshLine := true)
    case Select(s) =>
      var r := Prompted(c.screen, s);
      var answered := r.outcome.Confirmed?;
      c.(screen := r.screen,
         booked := Tally(0, c.booked.rows + SelectRows(width, s.question, s.options, answered), false),
         truth := Account(width, c.truth, SelectTranscript(s.question, s.options, r.shown, s.color, answered)),
         onFreshLine := true)
    case Reflow(s) => c.(screen := s, reflowed := true)
    case Latch => c.(handled := true)
    case Degrade => c.(handled := true)
    case _ => c
  }

  predicate EventsOk(events: seq<Event>) {
    forall i | 0 <= i < |events| :: events[i].Ok()
  }

  function ReplayAll(c: Course, events: seq<Event>): (r: Course)
    requires EventsOk(events)
    decreases |events|
  {
    if events == [] then c else ReplayAll(Replay(c, events[0]), events[1..])
  }

  function HappensAll(v: View, events: seq<Event>): (r: View)
    requires Formed(v) && EventsOk(events)
    decreases |events|
  {
    if events == [] then v
    else
      FormedKept(v, events[0]);
      HappensAll(Happens(v, events[0]), events[1..])
  }

  /** `events`, one after the other, turn `v` into `w`. Quantified, as `Good` is, so that a caller need
      not look inside. */
  ghost predicate Leads(v: View, events: seq<Event>, w: View) {
    forall es: seq<Event> | es == events && EventsOk(es) && Formed(v) :: HappensAll(v, es) == w
  }

  lemma LeadsOne(v: View, e: Event, w: View)
    requires Formed(v) && e.Ok() && Happens(v, e) == w
    ensures EventsOk([e]) && Leads(v, [e], w) && Formed(w)
  {
    FormedKept(v, e);
    assert [e][1..] == [];
    assert HappensAll(w, []) == w;
  }

  /** `redraw` turns `v` into `w`. Quantified, as `Good` is. */
  ghost predicate Redraws(v: View, i: int, readable: bool, w: View) {
    forall j: int | j == i && 0 <= j < |v.art.frames| :: Redrawing(v, j, readable) == w
  }

  lemma TickLeads(v: View, readable: bool, w: View)
    requires Formed(v) && v.f.running && v.f.animating && v.l.lastNL
    requires var (i, d) := NextPingPong(v.art.idx, v.art.dir, |v.art.frames|);
             var u := v.(art := v.art.(idx := i, dir := d));
             if i == v.art.lastDrawn then w == u else Redraws(u, i, readable, w)
    ensures EventsOk([Tick(readable)]) && Leads(v, [Tick(readable)], w)
  {
    var (i, d) := NextPingPong(v.art.idx, v.art.dir, |v.art.frames|);
    if i != v.art.lastDrawn {
      assert Redrawing(v.(art := v.art.(idx := i, dir := d)), i, readable) == w;
    }
    LeadsOne(v, Tick(readable), w);
  }

  lemma SettleLeads(v: View, readable: bool, w: View)
    requires Formed(v) && !v.f.stopped
    requires var u := v.(f := v.f.(running := false));
             if v.f.animating && v.l.lastNL then Redraws(u, 0, readable, w) else w == u
    ensures EventsOk([Settle(readable)]) && Leads(v, [Settle(readable)], w.(f := w.f.(stopped := true)))
  {
    if v.f.animating && v.l.lastNL {
      assert Redrawing(v.(f := v.f.(running := false)), 0, readable) == w;
    }
    LeadsOne(v, Settle(readable), w.(f := w.f.(stopped := true)));
  }

  lemma LatchLeads(v: View, w: View)
    requires Formed(v)
    requires var u := v.(f := v.f.(stale := true));
             if v.f.running && v.l.lastNL then Redraws(u, v.art.idx, true, w) else w == u
    ensures EventsOk([Latch]) && Leads(v, [Latch], w.(f := w.f.(afloat := false)))
  {
    if v.f.running && v.l.lastNL {
      assert Redrawing(v.(f := v.f.(stale := true)), v.art.idx, true) == w;
    }
    LeadsOne(v, Latch, w.(f := w.f.(afloat := false)));
  }

  lemma LeadsFormed(v: View, es: seq<Event>, w: View)
    requires Formed(v) && EventsOk(es) && Leads(v, es, w)
    ensures Formed(w)
  {
    HappensConcat(v, es, []);
    assert HappensAll(v, es) == w;
  }

  lemma LeadsNowhere(v: View)
    ensures Leads(v, [], v)
  {
  }

  lemma {:induction false} HappensConcat(v: View, a: seq<Event>, b: seq<Event>)
    requires Formed(v) && EventsOk(a) && EventsOk(b)
    ensures EventsOk(a + b) && Formed(HappensAll(v, a)) && HappensAll(v, a + b) == HappensAll(HappensAll(v, a), b)
    decreases |a|
  {
    if a == [] {
      assert a + b == b;
    } else {
      FormedKept(v, a[0]);
      assert (a + b)[1..] == a[1..] + b;
      HappensConcat(Happens(v, a[0]), a[1..], b);
    }
  }

  lemma LeadsThen(v: View, a: seq<Event>, w: View, b: seq<Event>, x: View)
    requires Formed(v) && EventsOk(a) && EventsOk(b) && Leads(v, a, w) && Leads(w, b, x)
    ensures EventsOk(a + b) && Formed(w) && Leads(v, a + b, x)
  {
    HappensConcat(v, a, b);
    assert HappensAll(v, a) == w;
    assert HappensAll(w, b) == x;
  }

  // ---------------------------------------------------------------------------------------
  // The header follows its course
  // ---------------------------------------------------------------------------------------

  /** The header is on course: same quiet terminal, same count; and unless a repaint is out of
      question, `truth` is the cursor's true place below the header. */
  predicate Follows(v: View, c: Course) {
    && c.screen == v.quiet && c.booked == Tallied(v.l) && c.onFreshLine == v.l.lastNL
    && (c.handled ==> v.f.stale || !v.f.animating)
    && (!c.handled ==> v.f.afloat == c.reflowed)
    && (c.reflowed || v.l.rows + v.l.body >= v.quiet.height || Synced(v.quiet, v.l.home, v.l.rows, c.truth))
  }

  lemma QuietHasSameShape(v: View)
    requires Good(v)
    ensures v.quiet.width == v.s.width && v.quiet.height == v.s.height && v.quiet.cur == v.s.cur && v.quiet.Valid()
    ensures v.quiet.top == v.s.top
    ensures v.l.body >= 1 && Tidy(v.l)
  {
    OpenGood(v);
  }

  /** Text on the quiet terminal, all of it counted in `truth`. */
  lemma TextFollows(v: View, c: Course, ts: seq<Token>)
    requires Good(v) && Follows(v, c) && AllInky(ts)
    ensures var q := Feed(v.quiet, ts);
            && q.height == v.quiet.height
            && (c.reflowed || v.l.rows + v.l.body >= q.height
                || Synced(q, v.l.home, v.l.rows, Account(v.quiet.width, c.truth, ts)))
  {
    FeedKeepsSize(v.quiet, ts);
    if Synced(v.quiet, v.l.home, v.l.rows, c.truth) {
      TextStaysSynced(v.quiet, v.l.home, v.l.rows, c.truth, ts);
    }
  }

  lemma PrintFollows(v: View, c: Course, e: Event)
    requires Formed(v) && Good(v) && Follows(v, c) && e.Ok() && e.Print?
    ensures Follows(Happens(v, e), Replay(c, e))
  {
    QuietHasSameShape(v);
    TextFollows(v, c, Tokens(e.bytes[..e.accepted]));
  }

  lemma SelectFollows(v: View, c: Course, e: Session)
    requires Formed(v) && Good(v) && Follows(v, c) && e.Ok()
    ensures Follows(Happens(v, Select(e)), Replay(c, Select(e)))
  {
    QuietHasSameShape(v);
    SameOutcome(v.s, v.quiet, e);
    SelectTruth(v, c, e, Prompted(v.quiet, e));
  }

  /** The prompt counted as the transcript it leaves, or too tall for any repaint. */
  lemma SelectTruth(v: View, c: Course, e: Session, r: Finish)
    requires Good(v) && Follows(v, c) && e.Ok() && r == Prompted(v.quiet, e)
    ensures var ts := SelectTranscript(e.question, e.options, r.shown, e.color, r.outcome.Confirmed?);
            && r.screen.height == v.quiet.height
            && (c.reflowed || v.l.rows + v.l.body + OptionRows(v.quiet.width, e.options) >= r.screen.height
                || Synced(r.screen, v.l.home, v.l.rows, Account(v.quiet.width, c.truth, ts)))
  {
    QuietHasSameShape(v);
    PromptedSize(v.quiet, e);
    if OptionRows(v.quiet.width, e.options) < v.quiet.height {
      PromptedIsTranscript(v.quiet, e);
      SelectTranscriptInky(e.question, e.options, r.shown, e.color, r.outcome.Confirmed?);
      TextFollows(v, c, SelectTranscript(e.question, e.options, r.shown, e.color, r.outcome.Confirmed?));
    }
  }

  lemma SameOutcome(s: Screen, t: Screen, e: Session)
    requires e.Ok()
    ensures Prompted(s, e).outcome == Prompted(t, e).outcome
  {
    OutcomeIsInput(Feed(Feed(s, QuestionLine(e.question)), Block(e.options, e.start, e.color)),
                   Feed(Feed(t, QuestionLine(e.question)), Block(e.options, e.start, e.color)),
                   OptionRows(s.width, e.options), OptionRows(t.width, e.options), e);
  }

  /** Ticks, settling and the handler's redraw leave the quiet terminal and the ledger to the others. */
  lemma PaintFollows(v: View, c: Course, e: Event)
    requires Formed(v) && Good(v) && Follows(v, c) && e.Ok() && (e.Tick? || e.Settle? || e.Latch?)
    ensures Follows(Happens(v, e), Replay(c, e))
  {
    QuietHasSameShape(v);
    if e.Latch? {
      LatchSeals(v);
    }
  }

  /** Every event keeps the header on its course. */
  lemma EventFollows(v: View, c: Course, e: Event)
    requires Formed(v) && Good(v) && Follows(v, c) && e.Ok()
    ensures Follows(Happens(v, e), Replay(c, e))
  {
    match e
    case Print(_, _) => PrintFollows(v, c, e);
    case Echo(t, entered) =>
      QuietHasSameShape(v);
      TypedIsText(t, entered);
      TextFollows(v, c, Typed(t, entered));
    case Book(_) => QuietHasSameShape(v);
    case Select(s) => SelectFollows(v, c, s);
    case Suspend =>
    case Start =>
    case Tick(_) => PaintFollows(v, c, e);
    case Reflow(_) =>
    case Latch => PaintFollows(v, c, e);
    case Degrade =>
    case Settle(_) => PaintFollows(v, c, e);
  }

  // ---------------------------------------------------------------------------------------
  // When a paint lands
  // ---------------------------------------------------------------------------------------

  /** While header and booked rows fit the viewport and the terminal has not reflowed, a paint climbs to
      the header's first row and comes back to where it started if and only if the count is right. */
  lemma PaintLandsIff(v: View, c: Course, e: Event)
    requires Formed(v) && Good(v) && Follows(v, c) && e.Ok() && Paints(v, e)
    requires !c.reflowed && v.l.rows + v.l.body < v.s.height
    ensures OnMark(v) <==> c.booked == c.truth
  {
    QuietHasSameShape(v);
    if c.booked == c.truth {
      assert v.s.cur.row == v.l.home + v.l.rows + v.l.body && v.s.top <= v.l.home;
    }
  }

  /** Header and booked rows fill the viewport: a climb stops at its first row and the way down at its
      last, so a paint lands if and only if the header is at the first and the cursor on the last. */
  predicate Wedged(s: Screen, home: int, rows: nat) {
    s.AtMargin() && s.top == home && s.cur.row == home + s.height - 1 && rows < s.height
  }

  /** A height that cannot be read lets such a paint through. */
  lemma TallPaintLandsIff(v: View, c: Course)
    requires Good(v) && Follows(v, c) && v.l.rows + v.l.body >= v.s.height
    ensures OnMark(v) <==> Wedged(c.screen, v.l.home, v.l.rows)
  {
    QuietHasSameShape(v);
    OpenGood(v);
  }

  /** The count of such a paint is never right: with a right one the header has left the viewport, and
      the paint goes over the viewport's first rows. */
  lemma TallPaintMisses(v: View, i: int)
    requires InStep(v) && v.s.AtMargin() && Depth(v.s, v.l.home, v.l.rows) == v.l.body
    requires v.l.rows < v.s.height <= v.l.rows + v.l.body
    requires 0 <= i < |v.art.frames| && |v.art.frames[i]| == v.l.rows && v.l.rows >= 1
    ensures v.l.home < v.s.top && !OnMark(v)
    ensures Redrawn(v, i).s == v.s.(cells := PaintFrame(v.s.cells, v.s.top, v.art.frames[i]))
  {
    StandsBelow(v, i);
    RedrawClamps(v.s, v.l.home, v.l.body, v.art.frames[i], v.art.color);
  }

  /** A paint lands, as the course alone tells. */
  predicate Reckoned(c: Course, home: int, rows: nat) {
    if rows + c.booked.rows < c.screen.height then c.booked == c.truth else Wedged(c.screen, home, rows)
  }

  /** No tick and no end of the wizard between a reflow and the first handler to finish. */
  predicate Timely(c: Course, events: seq<Event>)
    requires EventsOk(events)
    decreases |events|
  {
    events == [] ||
    (&& (events[0].Tick? || events[0].Settle? ==> c.handled || !c.reflowed)
     && Timely(Replay(c, events[0]), events[1..]))
  }

  /** Once a handler has finished nothing paints, and the handler itself never does. */
  lemma TimelyPaint(v: View, c: Course, e: Event)
    requires Formed(v) && Good(v) && Follows(v, c) && e.Ok() && Paints(v, e)
    requires e.Tick? || e.Settle? ==> c.handled || !c.reflowed
    ensures !c.handled && !c.reflowed && !v.f.afloat && (e.Tick? || e.Settle?)
    ensures OnMark(v) <==> Reckoned(c, v.l.home, v.l.rows)
  {
    QuietHasSameShape(v);
    if e.Latch? {
      LatchSeals(v);
    }
    if v.l.rows + v.l.body < v.s.height {
      PaintLandsIff(v, c, e);
    } else {
      TallPaintLandsIff(v, c);
    }
  }

  /** Every paint of the run lands on the header rows. */
  predicate Lands(v: View, events: seq<Event>)
    requires Formed(v) && EventsOk(events)
    decreases |events|
  {
    events == [] ||
    (FormedKept(v, events[0]);
     (Paints(v, events[0]) ==> OnMark(v)) && Lands(Happens(v, events[0]), events[1..]))
  }

  /** At every paint of the run the course says that it lands. */
  predicate CountsRight(v: View, c: Course, events: seq<Event>)
    requires Formed(v) && EventsOk(events)
    decreases |events|
  {
    events == [] ||
    (FormedKept(v, events[0]);
     && (Paints(v, events[0]) ==> Reckoned(c, v.l.home, v.l.rows))
     && CountsRight(Happens(v, events[0]), Replay(c, events[0]), events[1..]))
  }

  /** Every paint of the run shows its frame on the header rows and changes nothing else. */
  ghost predicate OnlyHeaderRows(v: View, events: seq<Event>)
    requires Formed(v) && EventsOk(events)
    decreases |events|
  {
    events == [] ||
    (FormedKept(v, events[0]);
     (Paints(v, events[0]) ==> PaintsOnly(v, events[0])) && OnlyHeaderRows(Happens(v, events[0]), events[1..]))
  }

  /** A whole run: every paint lands on the header rows if and only if the course says so at every paint.
      As long as that is so, every paint shows its frame on the header rows and changes nothing else, the
      terminal is, outside the header rows, what it would be with a header that is never repainted, and
      the header stays on its course. */
  lemma {:induction false} RunIsSoundIff(v: View, c: Course, events: seq<Event>)
    requires Formed(v) && Good(v) && Follows(v, c) && EventsOk(events) && Timely(c, events)
    ensures Lands(v, events) <==> CountsRight(v, c, events)
    ensures Lands(v, events) ==>
              var w := HappensAll(v, events);
              && Formed(w) && Good(w) && Follows(w, ReplayAll(c, events))
              && w.l.home == v.l.home && w.l.rows == v.l.rows && OnlyHeaderRows(v, events)
    decreases |events|
  {
    if events != [] {
      var e := events[0];
      if Paints(v, e) {
        TimelyPaint(v, c, e);
      }
      FormedKept(v, e);
      if Paints(v, e) ==> OnMark(v) {
        EventKeepsGood(v, e);
        EventFollows(v, c, e);
        RunIsSoundIff(Happens(v, e), Replay(c, e), events[1..]);
      }
    }
  }

  /** A condition on the events alone: at every tick and at the end, either a resize handler has
      finished, or the terminal never reflowed and either the header no longer fits a height that can
      be read, or the line is open, or the count is right. */
  predicate TickReckoned(c: Course, rows: nat, readable: bool) {
    || c.handled
    || (&& !c.reflowed
        && if rows + c.booked.rows < c.screen.height then c.onFreshLine ==> c.booked == c.truth else readable)
  }

  predicate AllReckoned(c: Course, rows: nat, events: seq<Event>)
    requires EventsOk(events)
    decreases |events|
  {
    events == [] ||
    (&& (events[0].Tick? || events[0].Settle? ==> TickReckoned(c, rows, events[0].readable))
     && AllReckoned(Replay(c, events[0]), rows, events[1..]))
  }

  lemma {:induction false} ReckonedRunsLand(v: View, c: Course, events: seq<Event>)
    requires Formed(v) && Good(v) && Follows(v, c) && EventsOk(events) && AllReckoned(c, v.l.rows, events)
    ensures Timely(c, events) && Lands(v, events)
    decreases |events|
  {
    if events != [] {
      var e := events[0];
      if Paints(v, e) {
        ReckonedPaint(v, c, e);
      }
      FormedKept(v, e);
      EventKeepsGood(v, e);
      EventFollows(v, c, e);
      ReckonedRunsLand(Happens(v, e), Replay(c, e), events[1..]);
    }
  }

  lemma ReckonedPaint(v: View, c: Course, e: Event)
    requires Formed(v) && Good(v) && Follows(v, c) && e.Ok() && Paints(v, e)
    requires e.Tick? || e.Settle? ==> TickReckoned(c, v.l.rows, e.readable)
    ensures !v.f.afloat && OnMark(v)
  {
    QuietHasSameShape(v);
    TimelyPaint(v, c, e);
  }

  /** While a repaint is still in question, the booked rows are the cursor's true distance below the
      header if and only if the two tallies have the same rows. */
  lemma DistanceIsBookedIff(v: View, c: Course)
    requires Good(v) && Follows(v, c) && !c.reflowed && v.l.rows + v.l.body < v.s.height
    ensures Depth(v.s, v.l.home, v.l.rows) == c.truth.rows
    ensures Depth(v.s, v.l.home, v.l.rows) == v.l.body <==> c.booked.rows == c.truth.rows
  {
    QuietHasSameShape(v);
  }

  // ---------------------------------------------------------------------------------------
  // Opening
  // ---------------------------------------------------------------------------------------

  /** A terminal after the first paint and the blank line below it. */
  function Opened(s: Screen, color: bool, frame: Frame): (r: Screen) {
    Feed(Feed(s, FirstPaint(color, frame)), [Newline])
  }

  /** The course that begins there: one row booked, and one row below the header. */
  function FirstCourse(s: Screen, color: bool, frame: Frame): (c: Course) {
    Course(Opened(s, color, frame), Tally(0, 1, false), Tally(0, 1, false), true, false, false)
  }

  /** The header right after it was opened on the terminal `s`. */
  predicate Opening(v: View, s: Screen) {
    && s.Valid() && s.AtMargin() && Formed(v) && AllFit(v.art.frames, s.width)
    && v.s == v.quiet == Opened(s, v.art.color, v.art.frames[0]) && !v.art.repainted
    && v.art.idx == 0 && v.art.dir == 1 && v.art.lastDrawn == 0
    && v.l == Ledger(s.cur.row, v.l.rows, 1, 0, false, true) && v.f == Flags(true, false, false, false, true, false)
  }

  /** The first frame is there, character by character, and no cell outside it has changed. */
  lemma OpenedShows(s: Screen, color: bool, frame: Frame)
    requires s.Valid() && s.AtMargin() && Fits(frame, s.width)
    ensures var t, home := Opened(s, color, frame), s.cur.row;
            && Inked(t.cells, home, frame)
            && forall p: (int, int) | !InFrame(home, frame, p) :: SameCell(s.cells, t.cells, p)
  {
    FirstPaintShows(s, color, frame);
    var first := Feed(s, FirstPaint(color, frame));
    assert Feed(first, [Newline]) == Step(first, Newline);
  }

  lemma OpeningIsGood(v: View, s: Screen)
    requires Opening(v, s)
    ensures var c := FirstCourse(s, v.art.color, v.art.frames[0]);
            Good(v) && InStep(v) && Follows(v, c) && Synced(c.screen, v.l.home, v.l.rows, c.truth)
  {
    var first := Feed(s, FirstPaint(v.art.color, v.art.frames[0]));
    FirstPaintSyncs(s, v.art.color, v.art.frames[0]);
    TextStaysSynced(first, s.cur.row, v.l.rows, Tally(0, 0, false), [Newline]);
    assert Account(first.width, Tally(0, 0, false), [Newline]) == Tally(0, 1, false);
    FeedKeepsSize(s, FirstPaint(v.art.color, v.art.frames[0]));
    FeedKeepsSize(first, [Newline]);
    OpenedShows(s, v.art.color, v.art.frames[0]);
    OpeningStep(v);
    GoodFromParts(v);
  }

  lemma OpeningStep(v: View)
    requires Synced(v.s, v.l.home, v.l.rows, Tally(0, 1, false)) && AllFit(v.art.frames, v.s.width)
    requires ShowsLast(v.s.cells, v.l, v.art)
    ensures InStep(v)
  {
  }
}
