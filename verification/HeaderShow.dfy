/**
 What the header rows show over a whole run: the first frame until the first repaint, then the frame
 painted last; and which frame that is while the header sways.
 */
module HeaderShow {
  import opened Terminal
  import opened HeaderPaint
  import opened Accounting
  import opened HeaderEvents
  import opened HeaderRun
  import opened OrdinaryRuns
  import opened Sway

  // ---------------------------------------------------------------------------------------
  // The frame painted last
  // ---------------------------------------------------------------------------------------

  /** The frame that the last paint of the run showed, `i` if there was none. */
  function LastPaint(v: View, events: seq<Event>, i: int): (r: int)
    requires Formed(v) && EventsOk(events)
    decreases |events|
  {
    if events == [] then i
    else
      FormedKept(v, events[0]);
      LastPaint(Happens(v, events[0]), events[1..], if Paints(v, events[0]) then Painted(v, events[0]) else i)
  }

  predicate EverPaints(v: View, events: seq<Event>)
    requires Formed(v) && EventsOk(events)
    decreases |events|
  {
    events != [] && (FormedKept(v, events[0]); Paints(v, events[0]) || EverPaints(Happens(v, events[0]), events[1..]))
  }

  /** A frame is taken for drawn exactly when it is painted. */
  lemma DrawnIffPainted(v: View, e: Event)
    requires Formed(v) && Good(v) && e.Ok()
    ensures Happens(v, e).art.repainted <==> v.art.repainted || Paints(v, e)
    ensures Happens(v, e).art.lastDrawn == if Paints(v, e) then Painted(v, e) else v.art.lastDrawn
  {
    if e.Latch? {
      LatchSeals(v);
    }
  }

  /** Over a run whose paints land, with blocks that fit and no reflow, the header stays in step, and what it
      takes for drawn is what was painted last. */
  lemma {:induction false} RunShows(v: View, c: Course, events: seq<Event>)
    requires Formed(v) && Good(v) && InStep(v) && Follows(v, c) && EventsOk(events)
    requires Timely(c, events) && Lands(v, events) && BlocksFit(v.s, events)
    ensures var w := HappensAll(v, events);
            && InStep(w) && w.l.home == v.l.home && w.art.frames == v.art.frames
            && w.art.lastDrawn == LastPaint(v, events, v.art.lastDrawn)
            && (w.art.repainted <==> v.art.repainted || EverPaints(v, events))
    decreases |events|
  {
    if events != [] {
      var e := events[0];
      if Paints(v, e) {
        TimelyPaint(v, c, e);
      }
      FormedKept(v, e);
      EventKeepsGood(v, e);
      EventFollows(v, c, e);
      DrawnIffPainted(v, e);
      SizeKept(v, c, e);
      RunShows(Happens(v, e), Replay(c, e), events[1..]);
    }
  }

  /** Only a reflow changes the terminal's size. */
  lemma SizeKept(v: View, c: Course, e: Event)
    requires Formed(v) && Good(v) && Follows(v, c) && e.Ok() && !e.Reflow? && Good(Happens(v, e))
    requires Follows(Happens(v, e), Replay(c, e))
    ensures Happens(v, e).s.width == v.s.width && Happens(v, e).s.height == v.s.height
  {
    QuietHasSameShape(v);
    QuietHasSameShape(Happens(v, e));
    ReplaySize(c, e);
  }

  /** The header rows of `cells` show what the run left there: the first frame, character by character, or the
      frame painted last and nothing else. */
  ghost predicate Leaves(v: View, events: seq<Event>, cells: Cells)
    requires Formed(v) && EventsOk(events)
  {
    var i := LastPaint(v, events, 0);
    && 0 <= i < |v.art.frames|
    && if EverPaints(v, events) then Shows(cells, v.l.home, v.art.frames[i])
       else Inked(cells, v.l.home, v.art.frames[0])
  }

  /** An ordinary run from the first paint on leaves the frame painted last on the header rows, and the first
      frame as long as there was no repaint. */
  lemma OrdinaryRunShows(v: View, s: Screen, events: seq<Event>)
    requires Opening(v, s) && EventsOk(events) && BlocksFit(v.s, events)
    requires Ordinary(FirstCourse(s, v.art.color, v.art.frames[0]), Even, v.l.rows, events)
    ensures Leaves(v, events, HappensAll(v, events).s.cells)
  {
    var c := FirstCourse(s, v.art.color, v.art.frames[0]);
    OpeningIsGood(v, s);
    OpeningIsEven(c);
    OrdinaryIsReckoned(c, Even, v.l.rows, events);
    ReckonedRunsLand(v, c, events);
    RunShows(v, c, events);
    OpenStep(HappensAll(v, events));
    PaintedInRange(v, events, 0);
    if !EverPaints(v, events) {
      NeverPainted(v, events, 0);
    }
  }

  /** A run whose end paints leaves the resting frame, the first. */
  lemma {:induction false} EndsAtRest(v: View, events: seq<Event>, readable: bool, i: int)
    requires Formed(v) && EventsOk(events) && EventsOk(events + [Settle(readable)])
    requires Formed(HappensAll(v, events)) && Paints(HappensAll(v, events), Settle(readable))
    ensures EverPaints(v, events + [Settle(readable)]) && LastPaint(v, events + [Settle(readable)], i) == 0
    decreases |events|
  {
    var es := events + [Settle(readable)];
    if events == [] {
      assert es == [Settle(readable)] && es[1..] == [];
      FormedKept(v, es[0]);
      assert LastPaint(Happens(v, es[0]), [], 0) == 0;
    } else {
      assert es[1..] == events[1..] + [Settle(readable)];
      FormedKept(v, es[0]);
      EndsAtRest(Happens(v, es[0]), events[1..], readable, if Paints(v, es[0]) then Painted(v, es[0]) else i);
    }
  }

  lemma {:induction false} PaintedInRange(v: View, events: seq<Event>, i: int)
    requires Formed(v) && EventsOk(events) && 0 <= i < |v.art.frames|
    ensures 0 <= LastPaint(v, events, i) < |v.art.frames|
    decreases |events|
  {
    if events != [] {
      FormedKept(v, events[0]);
      PaintedInRange(Happens(v, events[0]), events[1..], if Paints(v, events[0]) then Painted(v, events[0]) else i);
    }
  }

  lemma {:induction false} NeverPainted(v: View, events: seq<Event>, i: int)
    requires Formed(v) && EventsOk(events) && !EverPaints(v, events)
    ensures LastPaint(v, events, i) == i
    decreases |events|
  {
    if events != [] {
      FormedKept(v, events[0]);
      NeverPainted(Happens(v, events[0]), events[1..], i);
    }
  }

  // ---------------------------------------------------------------------------------------
  // The sway
  // ---------------------------------------------------------------------------------------

  /** A tick that moves the sway: the ticker runs, the header still moves, the line is fresh. */
  predicate Sways(v: View, e: Event) {
    e.Tick? && v.f.running && v.f.animating && v.l.lastNL
  }

  function SwayCount(v: View, events: seq<Event>): (k: nat)
    requires Formed(v) && EventsOk(events)
    decreases |events|
  {
    if events == [] then 0
    else
      FormedKept(v, events[0]);
      (if Sways(v, events[0]) then 1 else 0) + SwayCount(Happens(v, events[0]), events[1..])
  }

  /** The sway is where `k` ticks bring it. */
  predicate OnWave(idx: int, dir: int, k: nat, n: nat) {
    n > 1 && After(k, n) == (idx, dir)
  }

  lemma NextOnWave(idx: int, dir: int, k: nat, n: nat)
    requires OnWave(idx, dir, k, n)
    ensures var (i, d) := NextPingPong(idx, dir, n); OnWave(i, d, k + 1, n) && i == Wave((k + 1) % (2 * (n - 1)), n).0
  {
    IsTriangleWave(k + 1, n);
  }

  lemma SwayStep(v: View, e: Event, k: nat)
    requires Formed(v) && e.Ok() && OnWave(v.art.idx, v.art.dir, k, |v.art.frames|)
    ensures var w := Happens(v, e);
            && w.art.frames == v.art.frames
            && OnWave(w.art.idx, w.art.dir, if Sways(v, e) then k + 1 else k, |v.art.frames|)
  {
    NextOnWave(v.art.idx, v.art.dir, k, |v.art.frames|);
  }

  lemma {:induction false} SwayRun(v: View, events: seq<Event>, k: nat)
    requires Formed(v) && EventsOk(events) && OnWave(v.art.idx, v.art.dir, k, |v.art.frames|)
    ensures var w := HappensAll(v, events);
            && w.art.frames == v.art.frames
            && OnWave(w.art.idx, w.art.dir, k + SwayCount(v, events), |v.art.frames|)
    decreases |events|
  {
    if events != [] {
      var e := events[0];
      FormedKept(v, e);
      SwayStep(v, e, k);
      SwayRun(Happens(v, e), events[1..], if Sways(v, e) then k + 1 else k);
    }
  }

  /** Whatever happens in between, the tick that paints after `k` others that moved the sway shows the next
      frame of the triangle wave. */
  lemma TicksPaintTheWave(v: View, s: Screen, events: seq<Event>, readable: bool, u: View, k: nat)
    requires Opening(v, s) && EventsOk(events) && |v.art.frames| > 1
    requires u == HappensAll(v, events) && Formed(u) && Paints(u, Tick(readable)) && k == SwayCount(v, events)
    ensures Painted(u, Tick(readable)) == Wave((k + 1) % (2 * (|v.art.frames| - 1)), |v.art.frames|).0
  {
    SwayRun(v, events, 0);
    NextOnWave(u.art.idx, u.art.dir, k, |v.art.frames|);
  }
}
