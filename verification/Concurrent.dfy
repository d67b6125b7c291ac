/**
 The goroutines of `Interleaving` on the terminal of `HeaderRun`: every step of every goroutine is at
 most one event, so every interleaving does to header and terminal what some run of events does, and
 what is proved of runs holds of interleavings.
 */
module Concurrent {
  import opened Terminal
  import opened HeaderPaint
  import opened Accounting
  import opened HeaderEvents
  import opened HeaderRun
  import opened OrdinaryRuns
  import opened HeaderShow
  import opened Sway
  import I = Interleaving

  /** The header and its terminal, and where the goroutines are. */
  datatype Joint = Joint(v: View, st: I.State)

  /** A step and what it does to header and terminal. */
  datatype Label = Label(act: I.Act, events: seq<Event>)

  /** The fields that the goroutines share, read off the header. */
  function Shared(v: View, resized: bool): (f: I.Fields) {
    I.Fields(v.f.running, v.f.stopped, v.f.animating, v.f.scrolledOff, v.f.stale, v.l.body, v.l.lastNL, resized)
  }

  /** Both sides agree. A select prompt happens as a whole when its rows are reconciled: until then the
      row count is whatever the redraws made of it, and the snapshot is what it was. */
  predicate Tied(j: Joint) {
    var f := Shared(j.v, j.st.f.resized);
    if j.st.main.Selecting? then
      j.st.f == f.(bodyLines := j.st.f.bodyLines, lastNL := j.st.f.lastNL) && j.st.main.pre == j.v.l.body
    else j.st.f == f
  }

  /** Header and body fit a viewport, or its height cannot be read. */
  predicate Clear(v: View, readable: bool) {
    !readable || v.l.rows + v.l.body < v.s.height
  }

  predicate One(l: Label) {
    |l.events| == 1 && l.events[0].Ok()
  }

  /** The label tells what the step does. */
  predicate Legit(j: Joint, l: Label)
    requires Formed(j.v)
  {
    var v := j.v;
    match l.act
    case M(m) => LegitMain(j, m, l)
    case T(Tick(_, fits, changed)) =>
      && One(l) && l.events[0].Tick? && fits == Clear(v, l.events[0].readable)
      && changed == (NextPingPong(v.art.idx, v.art.dir, |v.art.frames|).0 != v.art.lastDrawn)
    case T(Quit(_)) => l.events == []
    case H(Winch) => One(l) && l.events[0].Reflow?
    case H(Judge(eligible, fits)) =>
      if eligible then l.events == [Latch] && fits == Clear(v, true) else l.events == [Suspend]
    case H(Degrade) => l.events == [Event.Degrade]
    case H(_) => l.events == []
    case Echo => One(l) && l.events[0].Echo?
  }

  predicate LegitMain(j: Joint, m: I.MainAct, l: Label)
    requires Formed(j.v)
  {
    var v := j.v;
    match m
    case Write(rows, nl) =>
      if j.st.main.Selecting? then l.events == []
      else
        && One(l) && l.events[0].Print?
        && Happens(v, l.events[0]).l.body == v.l.body + rows && Happens(v, l.events[0]).l.lastNL == nl
    case Book(rows) => One(l) && l.events[0].Book? && Happens(v, l.events[0]).l.body == v.l.body + rows
    case Reconcile(rows) => One(l) && l.events[0].Select? && Happens(v, l.events[0]).l.body == v.l.body + rows
    case BeginSuspend => l.events == [Suspend]
    case BeginStop => l.events == [Suspend]
    case StartTicker => l.events == [Start]
    case Settle(fits) => One(l) && l.events[0].Settle? && fits == Clear(v, l.events[0].readable)
    case _ => l.events == []
  }

  predicate Enabled(j: Joint, l: Label)
    requires Formed(j.v)
  {
    I.Enabled(j.st, l.act) && Legit(j, l)
  }

  /** The view after a step: at most one event. */
  function Effect(v: View, l: Label): (w: View)
    requires Formed(v) && EventsOk(l.events)
    ensures Formed(w)
  {
    if l.events == [] then v
    else
      FormedKept(v, l.events[0]);
      Happens(v, l.events[0])
  }

  lemma LegitIsOk(j: Joint, l: Label)
    requires Formed(j.v) && Legit(j, l)
    ensures EventsOk(l.events) && |l.events| <= 1
  {
  }

  function Do(j: Joint, l: Label): (r: Joint)
    requires Formed(j.v) && Enabled(j, l)
    ensures Formed(r.v)
  {
    LegitIsOk(j, l);
    Joint(Effect(j.v, l), I.Do(j.st, l.act))
  }

  // ---------------------------------------------------------------------------------------
  // One step
  // ---------------------------------------------------------------------------------------

  lemma RedrawShared(v: View, i: int, readable: bool, resized: bool)
    requires 0 <= i < |v.art.frames|
    ensures Shared(Redrawing(v, i, readable), resized) == I.Redraw(Shared(v, resized), Clear(v, readable))
    ensures Repaints(v, readable) <==> I.Repaints(Shared(v, resized), Clear(v, readable))
  {
  }

  lemma TickShared(v: View, readable: bool, resized: bool)
    requires Formed(v)
    ensures var changed := NextPingPong(v.art.idx, v.art.dir, |v.art.frames|).0 != v.art.lastDrawn;
            Shared(Ticked(v, readable), resized)
            == if v.f.running && v.f.animating && v.l.lastNL && changed
               then I.Redraw(Shared(v, resized), Clear(v, readable))
               else Shared(v, resized)
  {
    if v.f.running && v.f.animating && v.l.lastNL {
      var (i, d) := NextPingPong(v.art.idx, v.art.dir, |v.art.frames|);
      var u := v.(art := v.art.(idx := i, dir := d));
      RedrawShared(u, i, readable, resized);
    }
  }

  lemma SettleShared(v: View, readable: bool, resized: bool)
    requires Formed(v) && !v.f.stopped && !v.f.running
    ensures var f := Shared(v, resized);
            Shared(Settled(v, readable), resized)
            == (if v.f.animating && v.l.lastNL then I.Redraw(f, Clear(v, readable)) else f).(stopped := true)
  {
    assert v.(f := v.f.(running := false)) == v;
    RedrawShared(v, 0, readable, resized);
  }

  lemma LatchShared(v: View, resized: bool)
    requires Formed(v)
    ensures var f := Shared(v, resized).(stale := true);
            Shared(Latched(v), resized) == if v.f.running && v.l.lastNL then I.Redraw(f, Clear(v, true)) else f
  {
    var u := v.(f := v.f.(stale := true));
    RedrawShared(u, u.art.idx, true, resized);
  }

  /** Text changes the row count and the open line, and nothing else that is shared. */
  lemma TextShared(v: View, e: Event, resized: bool)
    requires Formed(v) && e.Ok() && (e.Print? || e.Book? || e.Select? || e.Echo?)
    ensures var w := Happens(v, e);
            && Shared(w, resized) == Shared(v, resized).(bodyLines := w.l.body, lastNL := w.l.lastNL)
            && (e.Book? || e.Select? ==> w.l.lastNL) && (e.Echo? ==> w.l == v.l)
  {
    if e.Book? {
      TypedIsText(e.answer, true);
    }
  }

  lemma MainTied(j: Joint, l: Label)
    requires Formed(j.v) && Tied(j) && I.FlagsOk(j.st) && Enabled(j, l) && l.act.M?
    ensures Tied(Do(j, l))
  {
    var m := l.act.m;
    if m.Write? || m.Book? || m.Reconcile? {
      MainTextTied(j, l);
    } else if m.Settle? {
      MainSettleTied(j, l);
    } else {
      MainFlagsTied(j, l);
    }
  }

  lemma MainTextTied(j: Joint, l: Label)
    requires Formed(j.v) && Tied(j) && Enabled(j, l) && l.act.M?
    requires l.act.m.Write? || l.act.m.Book? || l.act.m.Reconcile?
    ensures Tied(Do(j, l))
  {
    if l.act.m.Reconcile? {
      ReconcileTied(j, l);
    } else if l.events != [] {
      TextShared(j.v, l.events[0], j.st.f.resized);
    }
  }

  lemma ReconcileTied(j: Joint, l: Label)
    requires Formed(j.v) && Tied(j) && Enabled(j, l) && l.act.M? && l.act.m.Reconcile?
    ensures Tied(Do(j, l))
  {
    TextShared(j.v, l.events[0], j.st.f.resized);
  }

  lemma MainSettleTied(j: Joint, l: Label)
    requires Formed(j.v) && Tied(j) && I.FlagsOk(j.st) && Enabled(j, l) && l.act.M? && l.act.m.Settle?
    ensures Tied(Do(j, l))
  {
    SettleShared(j.v, l.events[0].readable, j.st.f.resized);
  }

  lemma MainFlagsTied(j: Joint, l: Label)
    requires Formed(j.v) && Tied(j) && I.FlagsOk(j.st) && Enabled(j, l) && l.act.M?
    requires !(l.act.m.Write? || l.act.m.Book? || l.act.m.Reconcile? || l.act.m.Settle?)
    ensures Tied(Do(j, l))
  {
    var m := l.act.m;
    if m.BeginSuspend? || m.BeginStop? || m.StartTicker? {
      MainTickerTied(j, l);
    }
  }

  /** Starting and stopping the ticker. */
  lemma MainTickerTied(j: Joint, l: Label)
    requires Formed(j.v) && Tied(j) && I.FlagsOk(j.st) && Enabled(j, l) && l.act.M?
    requires l.act.m.BeginSuspend? || l.act.m.BeginStop? || l.act.m.StartTicker?
    ensures Tied(Do(j, l))
  {
    assert l.events == [Suspend] || l.events == [Start];
  }

  lemma TickerTied(j: Joint, l: Label)
    requires Formed(j.v) && Tied(j) && I.FlagsOk(j.st) && Enabled(j, l) && l.act.T?
    ensures Tied(Do(j, l))
  {
    if l.act.t.Tick? {
      TickShared(j.v, l.events[0].readable, j.st.f.resized);
    }
  }

  lemma HandlerTied(j: Joint, l: Label)
    requires Formed(j.v) && Tied(j) && I.FlagsOk(j.st) && Enabled(j, l) && l.act.H?
    ensures Tied(Do(j, l))
  {
    match l.act.h
    case Judge(_, _) => JudgeTied(j, l);
    case Winch => ReflowShared(j.v, l.events[0], j.st.f.resized);
    case Degrade => DegradeTied(j, l);
    case _ => assert l.events == [];
  }

  /** A reflow changes no shared field. */
  lemma ReflowShared(v: View, e: Event, resized: bool)
    requires Formed(v) && e.Ok() && e.Reflow?
    ensures Shared(Happens(v, e), resized) == Shared(v, resized)
  {
  }

  lemma DegradeTied(j: Joint, l: Label)
    requires Formed(j.v) && Tied(j) && I.FlagsOk(j.st) && Enabled(j, l) && l.act == I.H(I.Degrade)
    ensures Tied(Do(j, l))
  {
    assert l.events == [Event.Degrade];
  }

  lemma JudgeTied(j: Joint, l: Label)
    requires Formed(j.v) && Tied(j) && I.FlagsOk(j.st) && Enabled(j, l) && l.act.H? && l.act.h.Judge?
    ensures Tied(Do(j, l))
  {
    if l.act.h.eligible {
      LatchShared(j.v, j.st.f.resized);
    }
  }

  /** Both sides stay tied... */
  lemma StepStaysTied(j: Joint, l: Label)
    requires Formed(j.v) && Tied(j) && I.FlagsOk(j.st) && Enabled(j, l)
    ensures Tied(Do(j, l))
  {
    match l.act
    case M(_) => MainTied(j, l);
    case T(_) => TickerTied(j, l);
    case H(_) => HandlerTied(j, l);
    case Echo => TextShared(j.v, l.events[0], j.st.f.resized);
  }

  /** ...and a step of the goroutines paints exactly when its event does. */
  lemma PaintsAlike(j: Joint, l: Label)
    requires Formed(j.v) && Tied(j) && I.FlagsOk(j.st) && Enabled(j, l)
    ensures I.Paints(j.st, l.act) <==> l.events != [] && Paints(j.v, l.events[0])
  {
  }

  // ---------------------------------------------------------------------------------------
  // Runs
  // ---------------------------------------------------------------------------------------

  predicate IsRun(j: Joint, ls: seq<Label>)
    requires Formed(j.v)
    decreases |ls|
  {
    ls == [] || (Enabled(j, ls[0]) && IsRun(Do(j, ls[0]), ls[1..]))
  }

  function After(j: Joint, ls: seq<Label>): (r: Joint)
    requires Formed(j.v) && IsRun(j, ls)
    ensures Formed(r.v)
    decreases |ls|
  {
    if ls == [] then j else After(Do(j, ls[0]), ls[1..])
  }

  /** The events of a run, in order. */
  function Trace(ls: seq<Label>): (es: seq<Event>) {
    if ls == [] then [] else ls[0].events + Trace(ls[1..])
  }

  function Acts(ls: seq<Label>): (acts: seq<I.Act>) {
    if ls == [] then [] else [ls[0].act] + Acts(ls[1..])
  }

  /** Every interleaving is, on the goroutines' side, a run of `Interleaving`, and on the terminal's side
      the run of its events. */
  lemma {:induction false} InterleavingIsARun(j: Joint, ls: seq<Label>)
    requires Formed(j.v) && Tied(j) && I.Inv(j.st) && IsRun(j, ls)
    ensures I.IsRun(j.st, Acts(ls)) && I.After(j.st, Acts(ls)) == After(j, ls).st
    ensures EventsOk(Trace(ls)) && HappensAll(j.v, Trace(ls)) == After(j, ls).v
    ensures Tied(After(j, ls)) && I.Inv(After(j, ls).st)
    decreases |ls|
  {
    if ls != [] {
      var l := ls[0];
      StepStaysTied(j, l);
      I.StepKeepsInv(j.st, l.act);
      InterleavingIsARun(Do(j, l), ls[1..]);
      assert Acts(ls)[1..] == Acts(ls[1..]);
      LegitIsOk(j, l);
      EffectHappens(j.v, l, Trace(ls[1..]));
    }
  }

  lemma EffectHappens(v: View, l: Label, rest: seq<Event>)
    requires Formed(v) && EventsOk(l.events) && |l.events| <= 1 && EventsOk(rest)
    ensures EventsOk(l.events + rest) && HappensAll(v, l.events + rest) == HappensAll(Effect(v, l), rest)
  {
    if l.events == [] {
      assert l.events + rest == rest;
    } else {
      assert (l.events + rest)[1..] == rest;
    }
  }

  /** Every interleaving whose events are an ordinary run: every paint shows its frame on the header rows
      and changes nothing else, and the terminal is, outside those rows, what a wizard whose header is
      never repainted would show. */
  lemma EveryInterleavingIsSound(j: Joint, c: Course, p: Phase, ls: seq<Label>)
    requires Formed(j.v) && Good(j.v) && Follows(j.v, c) && Steady(c, p) && Tied(j) && I.Inv(j.st) && IsRun(j, ls)
    ensures EventsOk(Trace(ls))
    ensures Ordinary(c, p, j.v.l.rows, Trace(ls)) ==>
              && OnlyHeaderRows(j.v, Trace(ls)) && Follows(After(j, ls).v, ReplayAll(c, Trace(ls)))
              && SameOutside(After(j, ls).v.s, ReplayAll(c, Trace(ls)).screen, j.v.l.home, j.v.l.rows)
  {
    InterleavingIsARun(j, ls);
    if Ordinary(c, p, j.v.l.rows, Trace(ls)) {
      OrdinaryRunIsSound(j.v, c, p, Trace(ls));
    }
  }

  /** In every interleaving a step that paints does so outside every suspension, before any resize
      handler has completed and before `Stop` has returned. */
  lemma EveryPaintIsSafe(j: Joint, ls: seq<Label>, l: Label)
    requires Formed(j.v) && Tied(j) && I.Inv(j.st) && IsRun(j, ls) && Enabled(After(j, ls), l)
    requires l.events != [] && Paints(After(j, ls).v, l.events[0])
    ensures var t := After(j, ls).st; !I.Suspended(t) && !t.f.resized && t.main != I.Returned && t.f.lastNL
  {
    InterleavingIsARun(j, ls);
    PaintsAlike(After(j, ls), l);
    I.PaintIsSafe(After(j, ls).st, l.act);
  }

  // ---------------------------------------------------------------------------------------
  // From the first paint on
  // ---------------------------------------------------------------------------------------

  /** Right after the header was opened, both sides are tied. */
  lemma OpeningIsTied(j: Joint, s: Screen)
    requires Opening(j.v, s) && I.Initial(j.st)
    ensures Formed(j.v) && Tied(j) && I.Inv(j.st)
  {
    I.InitialInv(j.st);
  }

  /** Every interleaving from the first paint on whose events are an ordinary run, or a plain one: paints
      touch the header rows only and leave the frame painted last there, the rest of the terminal is what it
      would be with a header painted once, and on a fresh line the booked rows are the cursor's true
      distance below the header. */
  lemma OpenedInterleavingIsSound(j: Joint, s: Screen, ls: seq<Label>)
    requires Opening(j.v, s) && I.Initial(j.st) && IsRun(j, ls)
    ensures EventsOk(Trace(ls))
    ensures var c := FirstCourse(s, j.v.art.color, j.v.art.frames[0]);
            var w, d := After(j, ls).v, ReplayAll(c, Trace(ls));
            Ordinary(c, Even, j.v.l.rows, Trace(ls)) || PlainRun(Between(true), Trace(ls)) ==>
              && OnlyHeaderRows(j.v, Trace(ls)) && SameOutside(w.s, d.screen, j.v.l.home, j.v.l.rows)
              && (BlocksFit(j.v.s, Trace(ls)) ==> Leaves(j.v, Trace(ls), w.s.cells))
              && (BlocksFit(j.v.s, Trace(ls)) && !d.handled && w.l.lastNL ==>
                    Depth(w.s, j.v.l.home, j.v.l.rows) == w.l.body)
  {
    var c := FirstCourse(s, j.v.art.color, j.v.art.frames[0]);
    OpeningIsTied(j, s);
    OpeningIsGood(j.v, s);
    OpeningIsEven(c);
    EveryInterleavingIsSound(j, c, Even, ls);
    InterleavingIsARun(j, ls);
    if PlainRun(Between(true), Trace(ls)) {
      PlainIsOrdinary(c, Even, Between(true), j.v.l.rows, Trace(ls));
    }
    if Ordinary(c, Even, j.v.l.rows, Trace(ls)) && BlocksFit(j.v.s, Trace(ls)) {
      OrdinaryRunShows(j.v, s, Trace(ls));
      if !ReplayAll(c, Trace(ls)).handled {
        DistanceIsBooked(j.v, c, Even, Trace(ls));
      }
    }
  }

  /** And a step that paints does so outside every suspension, before any resize handler has completed and
      before `Stop` has returned. */
  lemma OpenedPaintIsSafe(j: Joint, s: Screen, ls: seq<Label>, l: Label)
    requires Opening(j.v, s) && I.Initial(j.st) && IsRun(j, ls) && Enabled(After(j, ls), l)
    requires l.events != [] && Paints(After(j, ls).v, l.events[0])
    ensures var t := After(j, ls).st; !I.Suspended(t) && !t.f.resized && t.main != I.Returned && t.f.lastNL
  {
    OpeningIsTied(j, s);
    EveryPaintIsSafe(j, ls, l);
  }
}
