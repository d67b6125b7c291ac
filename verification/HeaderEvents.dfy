/**
 Everything that can happen while the header is live, one lock section or one act of the terminal at
 a time: what it does to the header and its terminal, what it would do to a wizard whose header is
 never repainted, and when the two agree.

 The header counts what passes through it. Characters the terminal echoes are counted only where a
 prompt books them: the answer to a typed question that ended in Enter. A typed question ended by end
 of input, the y/N confirmation and typing ahead leave characters on the screen that nobody books.
 So a run is sound not always, but exactly as long as the header's count is right whenever it paints.
 */
module HeaderEvents {
  import opened Utf8
  import opened Terminal
  import opened SelectBlock
  import opened SelectSession
  import opened HeaderPaint
  import opened Accounting
  import opened Sway

  datatype Event =
    | Print(bytes: seq<byte>, accepted: nat)
    | Echo(typed: Text, entered: bool)
    | Book(answer: Text)
    | Select(session: Session)
    | Suspend
    | Start
    | Tick(readable: bool)
    | Reflow(reflowed: Screen)
    | Latch
    | Degrade
    | Settle(readable: bool)
  {
    predicate Ok() {
      match this
      case Print(b, n) => n <= |b| && Transcript(b[..n])
      case Echo(t, _) => Printable(t)
      case Book(a) => Printable(a)
      case Select(e) => e.Ok()
      case Reflow(s) => s.Valid()
      case _ => true
    }
  }

  // ---------------------------------------------------------------------------------------
  // The header
  // ---------------------------------------------------------------------------------------

  /** The same header: its frames, its place, and indices in range. */
  predicate Kin(v: View, w: View) {
    && w.art.frames == v.art.frames && w.art.color == v.art.color && w.l.rows == v.l.rows && w.l.home == v.l.home
    && 0 <= w.art.idx < |v.art.frames| && 0 <= w.art.lastDrawn < |v.art.frames| && (w.art.dir == 1 || w.art.dir == -1)
    && w.quiet.width == w.s.width
  }

  /** `redraw` emits bytes. A viewport height that cannot be read holds nothing back. */
  predicate Repaints(v: View, readable: bool) {
    !v.f.scrolledOff && !(v.f.stale && v.l.body != 0) && (!readable || v.l.rows + v.l.body < v.s.height)
  }

  /** `redraw`. */
  function Redrawing(v: View, i: int, readable: bool): (r: View)
    requires 0 <= i < |v.art.frames|
    ensures r.l == v.l && r.art.frames == v.art.frames && r.art.color == v.art.color
    ensures r.art.idx == v.art.idx && r.art.dir == v.art.dir
    ensures r.art.lastDrawn == v.art.lastDrawn || r.art.lastDrawn == i
    ensures r.s.width == v.s.width && r.quiet == v.quiet
  {
    if v.f.scrolledOff || (v.f.stale && v.l.body != 0) then v
    else if Repaints(v, readable) then Redrawn(v.(f := v.f.(stale := false)), i)
    else v.(f := v.f.(stale := false, scrolledOff := true))
  }

  /** `tick`. */
  function Ticked(v: View, readable: bool): (r: View)
    requires Formed(v)
    ensures Kin(v, r) && r.l == v.l
  {
    if !v.f.running || !v.f.animating || !v.l.lastNL then v
    else
      var (i, d) := NextPingPong(v.art.idx, v.art.dir, |v.art.frames|);
      var u := v.(art := v.art.(idx := i, dir := d));
      if i == v.art.lastDrawn then u else Redrawing(u, i, readable)
  }

  /** `Stop`, once the ticker and the handler are gone. */
  function Settled(v: View, readable: bool): (r: View)
    requires Formed(v)
    ensures Kin(v, r) && r.l == v.l
  {
    if v.f.stopped then v
    else
      var w := Resting(v.(f := v.f.(running := false)), readable);
      w.(f := w.f.(stopped := true))
  }

  function Resting(v: View, readable: bool): (r: View)
    requires v.art.frames != []
    ensures r.l == v.l && r.art.frames == v.art.frames && r.art.color == v.art.color
    ensures r.art.idx == v.art.idx && r.art.dir == v.art.dir
    ensures r.art.lastDrawn == v.art.lastDrawn || r.art.lastDrawn == 0
    ensures r.s.width == v.s.width && r.quiet == v.quiet
  {
    if v.f.animating && v.l.lastNL then Redrawing(v, 0, readable) else v
  }

  /** `onResize` while the terminal is still wide enough: the accounting is stale from here on, and the
      redraw that follows finds it so. */
  function Latched(v: View): (r: View)
    requires Formed(v)
    ensures Kin(v, r) && r.l == v.l
  {
    var u := v.(f := v.f.(stale := true));
    var w := if u.f.running && u.l.lastNL then Redrawing(u, u.art.idx, true) else u;
    w.(f := w.f.(afloat := false))
  }

  /** What an event does. */
  function Happens(v: View, e: Event): (r: View)
    requires Formed(v) && e.Ok()
    ensures Kin(v, r) && r.l.body >= v.l.body
  {
    match e
    case Print(b, n) => Wrote(v, b[..n])
    case Echo(t, entered) => Fed(v, Typed(t, entered))
    case Book(a) => v.(l := BookedTokens(v.s.width, v.l, Typed(a, true)))
    case Select(session) => Selected(v, session)
    case Suspend => v.(f := v.f.(running := false))
    case Start => v.(f := v.f.(running := v.f.running || !v.f.stopped))
    case Tick(readable) => Ticked(v, readable)
    case Reflow(s) => v.(s := s, quiet := s, f := v.f.(afloat := true))
    case Latch => Latched(v)
    case Degrade => v.(f := v.f.(animating := false, afloat := false))
    case Settle(readable) => Settled(v, readable)
  }

  /** The event puts header bytes on the terminal. */
  predicate Paints(v: View, e: Event)
    requires Formed(v)
  {
    match e
    case Tick(readable) =>
      && v.f.running && v.f.animating && v.l.lastNL
      && NextPingPong(v.art.idx, v.art.dir, |v.art.frames|).0 != v.art.lastDrawn && Repaints(v, readable)
    case Latch => v.f.running && v.l.lastNL && Repaints(v.(f := v.f.(stale := true)), true)
    case Settle(readable) => !v.f.stopped && v.f.animating && v.l.lastNL && Repaints(v, readable)
    case _ => false
  }

  /** The frame it then shows. */
  function Painted(v: View, e: Event): (i: int)
    requires Formed(v)
    ensures 0 <= i < |v.art.frames|
  {
    match e
    case Tick(_) => NextPingPong(v.art.idx, v.art.dir, |v.art.frames|).0
    case Latch => v.art.idx
    case _ => 0
  }

  lemma KinIsFormed(v: View, w: View)
    requires Formed(v) && Kin(v, w)
    ensures Formed(w)
  {
  }

  lemma FormedKept(v: View, e: Event)
    requires Formed(v) && e.Ok()
    ensures Formed(Happens(v, e))
  {
    KinIsFormed(v, Happens(v, e));
  }

  // ---------------------------------------------------------------------------------------
  // One event keeps the invariant
  // ---------------------------------------------------------------------------------------

  lemma RedrawingKeepsGood(v: View, i: int, readable: bool)
    requires Formed(v) && Good(v) && 0 <= i < |v.art.frames|
    requires Repaints(v, readable) ==> v.f.animating && !v.f.afloat && OnMark(v)
    ensures Good(Redrawing(v, i, readable)) && (InStep(v) ==> InStep(Redrawing(v, i, readable)))
    ensures Sealed(v) ==> Sealed(Redrawing(v, i, readable))
    ensures Repaints(v, readable) ==>
              && SameOutside(v.s, Redrawing(v, i, readable).s, v.l.home, v.l.rows)
              && Shows(Redrawing(v, i, readable).s.cells, v.l.home, v.art.frames[i])
  {
    OpenGood(v);
    if Repaints(v, readable) {
      assert v.(f := v.f.(stale := false)) == v;
      RedrawKeepsGood(v, i);
      RedrawKeepsSize(v, i);
    } else if !v.f.scrolledOff && !v.f.stale {
      assert v.(f := v.f.(stale := false)) == v;
      SealKeepsGood(v);
    }
  }

  lemma RedrawKeepsSize(v: View, i: int)
    requires 0 <= i < |v.art.frames|
    ensures Redrawn(v, i).s.height == v.s.height && Redrawn(v, i).s.width == v.s.width
  {
    FeedKeepsSize(v.s, RedrawTokens(v.art.color, v.art.frames[i], v.l.body));
  }

  lemma TickKeepsGood(v: View, readable: bool)
    requires Formed(v) && Good(v) && (Paints(v, Tick(readable)) ==> !v.f.afloat && OnMark(v))
    ensures Good(Ticked(v, readable)) && (Sealed(v) ==> Sealed(Ticked(v, readable)))
    ensures InStep(v) ==> InStep(Ticked(v, readable))
    ensures Paints(v, Tick(readable)) ==> PaintsOnly(v, Tick(readable))
  {
    if v.f.running && v.f.animating && v.l.lastNL {
      var (i, d) := NextPingPong(v.art.idx, v.art.dir, |v.art.frames|);
      var u := v.(art := v.art.(idx := i, dir := d));
      FlagsKeepGood(v, i, d, v.f.running, v.f.stopped);
      if i != v.art.lastDrawn {
        KinIsFormed(v, u);
        RedrawingKeepsGood(u, i, readable);
      }
    }
  }

  lemma RestingKeepsGood(v: View, readable: bool)
    requires Formed(v) && Good(v)
    requires v.f.animating && v.l.lastNL && Repaints(v, readable) ==> !v.f.afloat && OnMark(v)
    ensures var w := Resting(v, readable);
            && Good(w) && (Sealed(v) ==> Sealed(w)) && (InStep(v) ==> InStep(w))
            && (v.f.animating && v.l.lastNL && Repaints(v, readable) ==>
                  SameOutside(v.s, w.s, v.l.home, v.l.rows) && Shows(w.s.cells, v.l.home, v.art.frames[0]))
  {
    if v.f.animating && v.l.lastNL {
      RedrawingKeepsGood(v, 0, readable);
    }
  }

  lemma SettleKeepsGood(v: View, readable: bool)
    requires Formed(v) && Good(v) && (Paints(v, Settle(readable)) ==> !v.f.afloat && OnMark(v))
    ensures Good(Settled(v, readable)) && (Sealed(v) ==> Sealed(Settled(v, readable)))
    ensures InStep(v) ==> InStep(Settled(v, readable))
    ensures Paints(v, Settle(readable)) ==> PaintsOnly(v, Settle(readable))
  {
    if !v.f.stopped {
      var u := v.(f := v.f.(running := false));
      FlagsKeepGood(v, v.art.idx, v.art.dir, false, v.f.stopped);
      KinIsFormed(v, u);
      RestingKeepsGood(u, readable);
      StoppedKeepsGood(Resting(u, readable));
    }
  }

  lemma StoppedKeepsGood(w: View)
    requires Good(w)
    ensures var x := w.(f := w.f.(stopped := true)); Good(x) && (InStep(w) ==> InStep(x)) && Sealed(x) == Sealed(w)
  {
    FlagsKeepGood(w, w.art.idx, w.art.dir, w.f.running, true);
  }

  /** With a row booked the handler's own redraw never paints, and no later one can. */
  lemma LatchSeals(v: View)
    requires Formed(v) && Good(v)
    ensures Good(Latched(v)) && Latched(v) == v.(f := v.f.(stale := true, afloat := false)) && !Paints(v, Latch)
  {
    OpenGood(v);
    HandledKeepsGood(v, v.(f := v.f.(stale := true, afloat := false)));
  }

  /** What a paint may do: show its frame on the header rows, and change nothing else. */
  ghost predicate PaintsOnly(v: View, e: Event)
    requires Formed(v) && e.Ok()
  {
    && SameOutside(v.s, Happens(v, e).s, v.l.home, v.l.rows)
    && Shows(Happens(v, e).s.cells, v.l.home, v.art.frames[Painted(v, e)])
  }

  /** The accounting stays possible: the event is neither a reflow nor a block as tall as the viewport. */
  predicate Fair(v: View, e: Event) {
    !e.Reflow? && (e.Select? ==> OptionRows(v.s.width, e.session.options) < v.s.height)
  }

  /** Every event keeps the invariant, provided that it paints, if at all, on the mark and not between a
      reflow and its handler; and then it paints the header rows only. */
  lemma EventKeepsGood(v: View, e: Event)
    requires Formed(v) && Good(v) && e.Ok() && (Paints(v, e) ==> !v.f.afloat && OnMark(v))
    ensures Good(Happens(v, e))
    ensures Fair(v, e) && InStep(v) ==> InStep(Happens(v, e))
    ensures Paints(v, e) ==> PaintsOnly(v, e)
  {
    match e
    case Print(b, n) => WriteKeepsGood(v, b[..n]);
    case Echo(t, entered) =>
      TypedIsText(t, entered);
      TextKeepsGood(v, Typed(t, entered));
    case Book(a) => BookKeepsGood(v, a);
    case Select(session) => SelectKeepsGood(v, session);
    case Suspend => FlagsKeepGood(v, v.art.idx, v.art.dir, false, v.f.stopped);
    case Start => FlagsKeepGood(v, v.art.idx, v.art.dir, v.f.running || !v.f.stopped, v.f.stopped);
    case Tick(readable) => TickKeepsGood(v, readable);
    case Reflow(s) => ReflowKeepsGood(v, s);
    case Latch =>
      LatchSeals(v);
      FlagsKeepStep(v, v.f.(stale := true, afloat := false));
    case Degrade =>
      HandledKeepsGood(v, v.(f := v.f.(animating := false, afloat := false)));
      FlagsKeepStep(v, v.f.(animating := false, afloat := false));
    case Settle(readable) => SettleKeepsGood(v, readable);
  }

  lemma FlagsKeepStep(v: View, f: Flags)
    ensures InStep(v) ==> InStep(v.(f := f))
  {
    if InStep(v) {
      StepIgnoresQuiet(v, v.(f := f));
    }
  }

  lemma BookKeepsGood(v: View, a: Text)
    requires Good(v) && Printable(a)
    ensures var w := v.(l := BookedTokens(v.s.width, v.l, Typed(a, true)));
            Good(w) && (InStep(v) ==> InStep(w))
  {
    TypedIsText(a, true);
    NewlineEndsAtMargin(v.s.width, Tallied(v.l), Typed(a, true));
    BookingKeepsGood(v, BookedTokens(v.s.width, v.l, Typed(a, true)));
  }
}
