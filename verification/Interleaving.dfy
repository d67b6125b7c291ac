/**
 The header under concurrency: the goroutine that asks the questions, the ticker goroutines it
 starts and stops, and the SIGWINCH handler, as steps of one state machine.

 A stretch of code that holds `mu` is one step; so is each channel operation. Every interleaving
 of the goroutines is a sequence of these steps.
 */
module Interleaving {

  /** Where the questioning goroutine is. `Closing` and `Waiting` are the two halves of stopping
      ticker `gen` after `running` was cleared under the lock; `Selecting` holds the row count that a
      select prompt found. */
  datatype Main =
    | Working
    | SuspendClosing(gen: nat)
    | SuspendWaiting(gen: nat)
    | Asking
    | Selecting(pre: nat)
    | Resuming
    | StopClosing(gen: nat)
    | StopWaiting(gen: nat)
    | Unwatching
    | ClosingWatch
    | AwaitingHandler
    | Settling
    | Returned

  /** Where the signal handler's goroutine is. */
  datatype Handler =
    | Listening
    | Entered
    | TickerClosing(gen: nat)
    | TickerWaiting(gen: nat)
    | Degrading
    | Exited

  /** The header's fields, all read and written with `mu` held. `resized` is bookkeeping of the model:
      some `onResize` call has completed. */
  datatype Fields = Fields(
    running: bool, stopped: bool, animating: bool, scrolledOff: bool, stale: bool,
    bodyLines: nat, lastNL: bool, resized: bool)

  /** The channels. Tickers are numbered; the current one is `cur`. `closed` counts the close
      calls on each stop channel, `exited` the tickers whose done channel is closed. */
  datatype Channels = Channels(
    cur: nat, closed: multiset<nat>, exited: set<nat>,
    signal: bool, notified: bool, watchClosed: bool)

  datatype State = State(f: Fields, c: Channels, main: Main, handler: Handler)

  /** Steps of the questioning goroutine. */
  datatype MainAct =
    | Write(rows: nat, nl: bool)
    | BeginSuspend
    | CloseStop
    | AwaitDone
    | Book(rows: nat)
    | Snapshot
    | Reconcile(rows: nat)
    | BeginResume
    | StartTicker
    | BeginStop
    | TakeWatch
    | CloseWatch
    | AwaitWatch
    | Settle(fits: bool)

  /** Steps of ticker `gen`. */
  datatype TickerAct =
    | Tick(gen: nat, fits: bool, changed: bool)
    | Quit(gen: nat)

  /** A reflow of the terminal, which raises the signal, and the steps of its handler. */
  datatype HandlerAct =
    | Winch
    | Enter
    | Judge(eligible: bool, fits: bool)
    | HandlerClose
    | HandlerAwait
    | Degrade
    | Leave

  /** `Echo` is the terminal's own: typed characters appear, at any time, and no field changes. */
  datatype Act = M(m: MainAct) | T(t: TickerAct) | H(h: HandlerAct) | Echo

  /** The state right after the header was started: one ticker, `lines` rows below it. */
  predicate Started(s: State, lines: nat) {
    && s.f == Fields(true, false, true, false, false, lines, true, false)
    && s.c == Channels(0, multiset{}, {}, false, true, false)
    && s.main == Working && s.handler == Listening
  }

  /** The header starts with the blank line already below it. */
  predicate Initial(s: State) {
    Started(s, 1)
  }

  // ---------------------------------------------------------------------------------------
  // Steps
  // ---------------------------------------------------------------------------------------

  /** `redraw`, called with the lock held: whether it emits bytes. */
  predicate Repaints(f: Fields, fits: bool) {
    !f.scrolledOff && !(f.stale && f.bodyLines != 0) && fits
  }

  /** `redraw`'s effect on the two latches. */
  function Redraw(f: Fields, fits: bool): (r: Fields) {
    if f.scrolledOff || (f.stale && f.bodyLines != 0) then f
    else f.(stale := false, scrolledOff := !fits)
  }

  predicate MainEnabled(s: State, a: MainAct) {
    match a
    case Write(_, _) => s.main == Working || s.main == Asking || s.main.Selecting?
    case BeginSuspend => s.main == Working
    case CloseStop => s.main.SuspendClosing? || s.main.StopClosing?
    case AwaitDone => (s.main.SuspendWaiting? || s.main.StopWaiting?) && s.main.gen in s.c.exited
    case Book(_) => s.main == Asking
    case Snapshot => s.main == Asking
    case Reconcile(_) => s.main.Selecting?
    case BeginResume => s.main == Asking
    case StartTicker => s.main == Resuming
    case BeginStop => s.main == Working
    case TakeWatch => s.main == Unwatching
    case CloseWatch => s.main == ClosingWatch
    case AwaitWatch => s.main == AwaitingHandler && s.handler == Exited
    case Settle(_) => s.main == Settling
  }

  function DoMain(s: State, a: MainAct): (r: State)
    requires MainEnabled(s, a)
  {
    match a
    case Write(rows, nl) => s.(f := s.f.(bodyLines := s.f.bodyLines + rows, lastNL := nl))
    case BeginSuspend =>
      if s.f.running then s.(f := s.f.(running := false), main := SuspendClosing(s.c.cur)) else s.(main := Asking)
    case CloseStop =>
      s.(c := s.c.(closed := s.c.closed + multiset{s.main.gen}),
         main := if s.main.SuspendClosing? then SuspendWaiting(s.main.gen) else StopWaiting(s.main.gen))
    case AwaitDone => s.(main := if s.main.SuspendWaiting? then Asking else Unwatching)
    case Book(rows) => s.(f := s.f.(bodyLines := s.f.bodyLines + rows, lastNL := true))
    case Snapshot => s.(main := Selecting(s.f.bodyLines))
    case Reconcile(rows) => s.(f := s.f.(bodyLines := s.main.pre + rows, lastNL := true), main := Asking)
    case BeginResume => s.(main := if s.f.animating then Resuming else Working)
    case StartTicker =>
      if s.f.running || s.f.stopped then s.(main := Working)
      else s.(f := s.f.(running := true), c := s.c.(cur := s.c.cur + 1), main := Working)
    case BeginStop =>
      if s.f.running then s.(f := s.f.(running := false), main := StopClosing(s.c.cur)) else s.(main := Unwatching)
    case TakeWatch => s.(main := ClosingWatch)
    case CloseWatch => s.(c := s.c.(notified := false, watchClosed := true), main := AwaitingHandler)
    case AwaitWatch => s.(main := Settling)
    case Settle(fits) =>
      var f := if s.f.animating && s.f.lastNL then Redraw(s.f, fits) else s.f;
      s.(f := f.(stopped := true), main := Returned)
  }

  predicate TickerEnabled(s: State, a: TickerAct) {
    a.gen <= s.c.cur && a.gen !in s.c.exited && (a.Quit? ==> a.gen in s.c.closed)
  }

  function DoTicker(s: State, a: TickerAct): (r: State)
    requires TickerEnabled(s, a)
  {
    match a
    case Tick(_, fits, changed) =>
      if s.f.running && s.f.animating && s.f.lastNL && changed then s.(f := Redraw(s.f, fits)) else s
    case Quit(g) => s.(c := s.c.(exited := s.c.exited + {g}))
  }

  predicate HandlerEnabled(s: State, a: HandlerAct) {
    match a
    case Winch => true
    case Enter => s.handler == Listening && s.c.signal
    case Judge(_, _) => s.handler == Entered
    case HandlerClose => s.handler.TickerClosing?
    case HandlerAwait => s.handler.TickerWaiting? && s.handler.gen in s.c.exited
    case Degrade => s.handler == Degrading
    case Leave => s.handler == Listening && s.c.watchClosed && !s.c.signal
  }

  function DoHandler(s: State, a: HandlerAct): (r: State)
    requires HandlerEnabled(s, a)
  {
    match a
    case Winch => s.(c := s.c.(signal := s.c.signal || s.c.notified))
    case Enter =>
      if s.f.animating then s.(c := s.c.(signal := false), handler := Entered)
      else s.(c := s.c.(signal := false), f := s.f.(resized := true))
    case Judge(eligible, fits) =>
      if eligible then
        var f := s.f.(stale := true);
        var g := if f.running && f.lastNL then Redraw(f, fits) else f;
        s.(f := g.(resized := true), handler := Listening)
      else if s.f.running then s.(f := s.f.(running := false), handler := TickerClosing(s.c.cur))
      else s.(handler := Degrading)
    case HandlerClose =>
      s.(c := s.c.(closed := s.c.closed + multiset{s.handler.gen}), handler := TickerWaiting(s.handler.gen))
    case HandlerAwait => s.(handler := Degrading)
    case Degrade => s.(f := s.f.(animating := false, resized := true), handler := Listening)
    case Leave => s.(handler := Exited)
  }

  predicate Enabled(s: State, a: Act) {
    match a
    case M(m) => MainEnabled(s, m)
    case T(t) => TickerEnabled(s, t)
    case H(h) => HandlerEnabled(s, h)
    case Echo => true
  }

  function Do(s: State, a: Act): (r: State)
    requires Enabled(s, a)
  {
    match a
    case M(m) => DoMain(s, m)
    case T(t) => DoTicker(s, t)
    case H(h) => DoHandler(s, h)
    case Echo => s
  }

  /** The step puts header bytes on the terminal. */
  predicate Paints(s: State, a: Act) {
    match a
    case T(Tick(_, fits, changed)) =>
      s.f.running && s.f.animating && s.f.lastNL && changed && Repaints(s.f, fits)
    case H(Judge(eligible, fits)) =>
      eligible && s.f.running && s.f.lastNL && Repaints(s.f.(stale := true), fits)
    case M(Settle(fits)) => s.f.animating && s.f.lastNL && Repaints(s.f, fits)
    case _ => false
  }

  /** `Suspend` has returned and `Resume` has not been called. */
  predicate Suspended(s: State) {
    s.main == Asking || s.main.Selecting?
  }

  // ---------------------------------------------------------------------------------------
  // The invariant
  // ---------------------------------------------------------------------------------------

  /** Calls that are about to close ticker `g`. */
  function Closers(m: Main, h: Handler, g: nat): (n: nat) {
    (if (m.SuspendClosing? || m.StopClosing?) && m.gen == g then 1 else 0)
    + (if h.TickerClosing? && h.gen == g then 1 else 0)
  }

  /** Latches and phases. */
  predicate FlagsOk(s: State) {
    && s.f.bodyLines >= 1 && (s.main.Selecting? ==> s.main.pre >= 1)
    && (s.main.Working? || s.main.Resuming? || !s.f.running)
    && (s.f.resized ==> s.f.stale || !s.f.animating)
    && (s.handler == Entered ==> s.f.animating)
    && (s.f.stopped <==> s.main == Returned)
    && (s.main == Settling || s.main == Returned ==> s.handler == Exited)
    && (s.main == Working && s.f.animating && !Stopping(s.handler) ==> s.f.running)
  }

  /** The handler is taking the ticker away. */
  predicate Stopping(h: Handler) {
    h.TickerClosing? || h.TickerWaiting? || h == Degrading
  }

  /** Ticker `g` has been closed or is about to be, once; the current one while running, and those not
      yet started, not at all. */
  predicate ClosedOnce(s: State, g: nat) {
    Closers(s.main, s.handler, g) + s.c.closed[g] == if g > s.c.cur || (s.f.running && g == s.c.cur) then 0 else 1
  }

  /** Somebody waits for ticker `g` to be gone. */
  predicate Awaited(s: State, g: nat) {
    || ((s.main.SuspendWaiting? || s.main.StopWaiting?) && s.main.gen == g)
    || (s.handler.TickerWaiting? && s.handler.gen == g)
  }

  /** A ticker that is gone was closed, and one that was closed is gone or waited for. */
  predicate GoneOk(s: State, g: nat) {
    (g in s.c.exited ==> g in s.c.closed) && (g in s.c.closed ==> g in s.c.exited || Awaited(s, g))
  }

  /** What each wait is waiting for has been arranged. */
  predicate WaitsOk(s: State) {
    && (s.main.SuspendWaiting? || s.main.StopWaiting? ==> s.main.gen in s.c.closed && s.main.gen <= s.c.cur)
    && (s.main.SuspendClosing? || s.main.StopClosing? ==> s.main.gen <= s.c.cur)
    && (s.handler.TickerWaiting? ==> s.handler.gen in s.c.closed && s.handler.gen <= s.c.cur)
    && (s.handler.TickerClosing? ==> s.handler.gen <= s.c.cur)
    && (s.main == AwaitingHandler ==> s.c.watchClosed)
    && (s.c.watchClosed ==> !s.c.notified) && (s.handler == Exited ==> s.c.watchClosed && !s.c.signal)
  }

  ghost predicate Inv(s: State) {
    FlagsOk(s) && WaitsOk(s) && forall g: nat :: ClosedOnce(s, g) && GoneOk(s, g)
  }

  lemma InitialInv(s: State)
    requires Initial(s)
    ensures Inv(s)
  {
  }

  lemma MainFlags(s: State, a: MainAct)
    requires FlagsOk(s) && WaitsOk(s) && MainEnabled(s, a)
    ensures FlagsOk(DoMain(s, a))
    ensures s.f.scrolledOff ==> DoMain(s, a).f.scrolledOff
    ensures s.f.stale ==> DoMain(s, a).f.stale
  {
  }

  lemma MainWaits(s: State, a: MainAct)
    requires FlagsOk(s) && WaitsOk(s) && MainEnabled(s, a)
    ensures WaitsOk(DoMain(s, a))
  {
  }

  lemma MainStep(s: State, a: MainAct)
    requires FlagsOk(s) && WaitsOk(s) && MainEnabled(s, a)
    ensures FlagsOk(DoMain(s, a)) && WaitsOk(DoMain(s, a))
    ensures s.f.scrolledOff ==> DoMain(s, a).f.scrolledOff
    ensures s.f.stale ==> DoMain(s, a).f.stale
  {
    MainFlags(s, a);
    MainWaits(s, a);
  }

  lemma TickerStep(s: State, a: TickerAct)
    requires FlagsOk(s) && WaitsOk(s) && TickerEnabled(s, a)
    ensures FlagsOk(DoTicker(s, a)) && WaitsOk(DoTicker(s, a))
    ensures s.f.scrolledOff ==> DoTicker(s, a).f.scrolledOff
    ensures s.f.stale ==> DoTicker(s, a).f.stale
  {
  }

  lemma HandlerStep(s: State, a: HandlerAct)
    requires FlagsOk(s) && WaitsOk(s) && HandlerEnabled(s, a)
    ensures FlagsOk(DoHandler(s, a)) && WaitsOk(DoHandler(s, a))
    ensures s.f.scrolledOff ==> DoHandler(s, a).f.scrolledOff
    ensures s.f.stale ==> DoHandler(s, a).f.stale
  {
  }

  lemma MainClosesOnce(s: State, a: MainAct, g: nat)
    requires FlagsOk(s) && MainEnabled(s, a) && ClosedOnce(s, g) && GoneOk(s, g)
    ensures ClosedOnce(DoMain(s, a), g) && GoneOk(DoMain(s, a), g)
  {
  }

  lemma HandlerClosesOnce(s: State, a: HandlerAct, g: nat)
    requires HandlerEnabled(s, a) && ClosedOnce(s, g) && GoneOk(s, g)
    ensures ClosedOnce(DoHandler(s, a), g) && GoneOk(DoHandler(s, a), g)
  {
  }

  /** Every step keeps the invariant and both latches. */
  lemma StepKeepsInv(s: State, a: Act)
    requires Inv(s) && Enabled(s, a)
    ensures Inv(Do(s, a))
    ensures s.f.scrolledOff ==> Do(s, a).f.scrolledOff
    ensures s.f.stale ==> Do(s, a).f.stale
  {
    match a
    case M(m) =>
      MainStep(s, m);
      forall g: nat ensures ClosedOnce(DoMain(s, m), g) && GoneOk(DoMain(s, m), g) {
        MainClosesOnce(s, m, g);
      }
    case T(t) =>
      TickerStep(s, t);
      forall g: nat ensures ClosedOnce(DoTicker(s, t), g) && GoneOk(DoTicker(s, t), g) {
        assert ClosedOnce(s, g) && GoneOk(s, g);
      }
    case H(h) =>
      HandlerStep(s, h);
      forall g: nat ensures ClosedOnce(DoHandler(s, h), g) && GoneOk(DoHandler(s, h), g) {
        HandlerClosesOnce(s, h, g);
      }
    case Echo =>
  }

  /** No step paints while suspended, after a completed resize, after `Stop` returned, or on an open
      line. */
  lemma PaintIsSafe(s: State, a: Act)
    requires FlagsOk(s) && Enabled(s, a) && Paints(s, a)
    ensures !Suspended(s) && !s.f.resized && s.main != Returned && s.f.lastNL
  {
  }

  // ---------------------------------------------------------------------------------------
  // Runs
  // ---------------------------------------------------------------------------------------

  predicate IsRun(s: State, acts: seq<Act>)
    decreases |acts|
  {
    acts == [] || (Enabled(s, acts[0]) && IsRun(Do(s, acts[0]), acts[1..]))
  }

  function After(s: State, acts: seq<Act>): (t: State)
    requires IsRun(s, acts)
    decreases |acts|
  {
    if acts == [] then s else After(Do(s, acts[0]), acts[1..])
  }

  lemma {:induction false} RunPrefix(s: State, acts: seq<Act>, i: nat)
    requires IsRun(s, acts) && i <= |acts|
    ensures IsRun(s, acts[..i])
    ensures i < |acts| ==> Enabled(After(s, acts[..i]), acts[i])
    ensures i < |acts| ==> IsRun(s, acts[..i + 1]) && After(s, acts[..i + 1]) == Do(After(s, acts[..i]), acts[i])
    decreases |acts|
  {
    if i > 0 {
      RunPrefix(Do(s, acts[0]), acts[1..], i - 1);
      assert acts[..i][1..] == acts[1..][..i - 1];
      if i < |acts| {
        assert acts[..i + 1][1..] == acts[1..][..i];
      }
    } else if |acts| > 0 {
      assert acts[..1] == [acts[0]] && acts[..0] == [];
      assert acts[..1][1..] == [];
    }
  }

  lemma {:induction false} RunKeepsInv(s: State, acts: seq<Act>)
    requires Inv(s) && IsRun(s, acts)
    ensures Inv(After(s, acts))
    decreases |acts|
  {
    if acts != [] {
      StepKeepsInv(s, acts[0]);
      RunKeepsInv(Do(s, acts[0]), acts[1..]);
    }
  }

  /** In every interleaving: a step that paints happens outside every suspension, before any
      resize handler has completed, before `Stop` has returned, and on a fresh line; and no ticker's
      stop channel is ever closed twice. */
  lemma EveryPaintIsSafe(s: State, acts: seq<Act>, i: nat)
    requires Initial(s) && IsRun(s, acts) && i < |acts|
    ensures IsRun(s, acts[..i]) && Enabled(After(s, acts[..i]), acts[i])
    ensures var t := After(s, acts[..i]);
            && (Paints(t, acts[i]) ==> !Suspended(t) && !t.f.resized && t.main != Returned && t.f.lastNL)
            && forall g: nat :: t.c.closed[g] <= 1
  {
    RunPrefix(s, acts, i);
    InitialInv(s);
    RunKeepsInv(s, acts[..i]);
    var t := After(s, acts[..i]);
    if Paints(t, acts[i]) {
      PaintIsSafe(t, acts[i]);
    }
    forall g: nat ensures t.c.closed[g] <= 1 {
      assert ClosedOnce(t, g);
    }
  }

  /** In every interleaving: while the wizard is between its prompts and the header still moves, and unless a
      handler is taking the ticker away, the ticker runs, so that every suspension was resumed. */
  lemma TickerRuns(s: State, acts: seq<Act>, fits: bool, changed: bool)
    requires Initial(s) && IsRun(s, acts)
    requires var t := After(s, acts); t.main == Working && t.f.animating && !Stopping(t.handler)
    ensures After(s, acts).f.running && Enabled(After(s, acts), T(Tick(After(s, acts).c.cur, fits, changed)))
  {
    InitialInv(s);
    RunKeepsInv(s, acts);
    assert ClosedOnce(After(s, acts), After(s, acts).c.cur) && GoneOk(After(s, acts), After(s, acts).c.cur);
  }

  /** When `Stop` returns nothing is left behind: every ticker ever started was closed once and is gone, the
      handler is gone, and no resize is waiting for it. */
  lemma NothingIsLeft(s: State, acts: seq<Act>)
    requires Initial(s) && IsRun(s, acts) && After(s, acts).main == Returned
    ensures var t := After(s, acts);
            && t.handler == Exited && !t.c.signal && !t.f.running
            && forall g: nat | g <= t.c.cur :: t.c.closed[g] == 1 && g in t.c.exited
  {
    InitialInv(s);
    RunKeepsInv(s, acts);
    var t := After(s, acts);
    forall g: nat | g <= t.c.cur ensures t.c.closed[g] == 1 && g in t.c.exited {
      assert ClosedOnce(t, g) && GoneOk(t, g);
    }
  }

  /** A resize that has not been dealt with is on its way. */
  predicate Heeded(s: State) {
    s.f.resized || s.c.signal || s.handler == Entered || Stopping(s.handler)
  }

  lemma {:induction false} RunHeeds(s: State, acts: seq<Act>)
    requires Heeded(s) && IsRun(s, acts)
    ensures Heeded(After(s, acts))
    decreases |acts|
  {
    if acts != [] {
      RunHeeds(Do(s, acts[0]), acts[1..]);
    }
  }

  /** A resize that comes before `Stop` has unsubscribed is never lost: by the time `Stop` returns its handler
      has completed. */
  lemma NoResizeIsLost(s: State, acts: seq<Act>, later: seq<Act>)
    requires Initial(s) && IsRun(s, acts) && After(s, acts).c.notified
    requires IsRun(Do(After(s, acts), H(Winch)), later)
    requires After(Do(After(s, acts), H(Winch)), later).main == Returned
    ensures var t := After(Do(After(s, acts), H(Winch)), later); t.f.resized && (t.f.stale || !t.f.animating)
  {
    var m := After(s, acts);
    InitialInv(s);
    RunKeepsInv(s, acts);
    StepKeepsInv(m, H(Winch));
    RunKeepsInv(Do(m, H(Winch)), later);
    RunHeeds(Do(m, H(Winch)), later);
  }

  lemma {:induction false} RunKeepsSnapshot(s: State, acts: seq<Act>)
    requires s.main.Selecting? && IsRun(s, acts) && forall i | 0 <= i < |acts| :: !(acts[i].M? && acts[i].m.Reconcile?)
    ensures After(s, acts).main == s.main
    decreases |acts|
  {
    if acts != [] {
      RunKeepsSnapshot(Do(s, acts[0]), acts[1..]);
    }
  }

  /** Whatever a select prompt's redraws and the other goroutines do in between, the row count afterwards is the
      count it found and the rows it measured. */
  lemma SelectIsReconciled(s: State, acts: seq<Act>, rows: nat)
    requires Enabled(s, M(Snapshot)) && IsRun(Do(s, M(Snapshot)), acts)
    requires forall i | 0 <= i < |acts| :: !(acts[i].M? && acts[i].m.Reconcile?)
    ensures Enabled(After(Do(s, M(Snapshot)), acts), M(Reconcile(rows)))
    ensures Do(After(Do(s, M(Snapshot)), acts), M(Reconcile(rows))).f.bodyLines == s.f.bodyLines + rows
  {
    RunKeepsSnapshot(Do(s, M(Snapshot)), acts);
  }

  /** Once set, the latches stay set for the rest of the run. */
  lemma {:induction false} LatchesStick(s: State, acts: seq<Act>)
    requires Inv(s) && IsRun(s, acts)
    ensures s.f.scrolledOff ==> After(s, acts).f.scrolledOff
    ensures s.f.stale ==> After(s, acts).f.stale
    decreases |acts|
  {
    if acts != [] {
      StepKeepsInv(s, acts[0]);
      LatchesStick(Do(s, acts[0]), acts[1..]);
    }
  }

  // ---------------------------------------------------------------------------------------
  // Progress
  // ---------------------------------------------------------------------------------------

  /** What the handler does next on its own. */
  function HandlerMove(s: State): (a: Act) {
    match s.handler
    case Listening => H(if s.c.signal then Enter else Leave)
    case Entered => H(Judge(true, true))
    case TickerClosing(_) => H(HandlerClose)
    case TickerWaiting(g) => if g in s.c.exited then H(HandlerAwait) else T(Quit(g))
    case Degrading => H(Degrade)
    case Exited => M(AwaitWatch)
  }

  /** A step on the way to the end. Where the wizard waits for the operator it is the return of that read,
      by an answer, end of input or a cancelled context; no other step needs a key, a signal or a timer. */
  function NextMove(s: State): (a: Act) {
    match s.main
    case Working => M(BeginStop)
    case SuspendClosing(_) => M(CloseStop)
    case StopClosing(_) => M(CloseStop)
    case SuspendWaiting(g) => if g in s.c.exited then M(AwaitDone) else T(Quit(g))
    case StopWaiting(g) => if g in s.c.exited then M(AwaitDone) else T(Quit(g))
    case Asking => M(BeginResume)
    case Selecting(_) => M(Reconcile(1))
    case Resuming => M(StartTicker)
    case Unwatching => M(TakeWatch)
    case ClosingWatch => M(CloseWatch)
    case AwaitingHandler => HandlerMove(s)
    case Settling => M(Settle(true))
    case Returned => Echo
  }

  /** Steps still ahead of the handler. */
  function HandlerRank(s: State): (n: nat) {
    (if s.c.signal then 2 else 0) +
    match s.handler
    case Exited => 0
    case Listening => 1
    case Entered => 2
    case Degrading => 2
    case TickerWaiting(g) => if g in s.c.exited then 3 else 4
    case TickerClosing(_) => 5
  }

  /** Steps still ahead of `Stop`, at most. */
  function Rank(s: State): (n: nat) {
    match s.main
    case Returned => 0
    case Settling => 1
    case AwaitingHandler => 2 + HandlerRank(s)
    case ClosingWatch => 3 + HandlerRank(s)
    case Unwatching => 4 + HandlerRank(s)
    case StopWaiting(g) => (if g in s.c.exited then 5 else 6) + HandlerRank(s)
    case StopClosing(_) => 8 + HandlerRank(s)
    case Working => 9 + HandlerRank(s)
    case Resuming => 10 + HandlerRank(s)
    case Asking => 11 + HandlerRank(s)
    case Selecting(_) => 12 + HandlerRank(s)
    case SuspendWaiting(g) => (if g in s.c.exited then 13 else 14) + HandlerRank(s)
    case SuspendClosing(_) => 16 + HandlerRank(s)
  }

  lemma NextMoveGoesOn(s: State)
    requires Inv(s) && s.main != Returned
    ensures Enabled(s, NextMove(s)) && Rank(Do(s, NextMove(s))) < Rank(s)
  {
  }

  /** The program's own way to the end. */
  ghost function WayOut(s: State): (acts: seq<Act>)
    requires Inv(s)
    decreases Rank(s)
  {
    if s.main == Returned then []
    else
      NextMoveGoesOn(s);
      StepKeepsInv(s, NextMove(s));
      [NextMove(s)] + WayOut(Do(s, NextMove(s)))
  }

  lemma {:induction false} WayOutArrives(s: State)
    requires Inv(s)
    ensures IsRun(s, WayOut(s)) && After(s, WayOut(s)).main == Returned && |WayOut(s)| <= Rank(s)
    decreases Rank(s)
  {
    if s.main != Returned {
      NextMoveGoesOn(s);
      StepKeepsInv(s, NextMove(s));
      WayOutArrives(Do(s, NextMove(s)));
      assert WayOut(s)[1..] == WayOut(Do(s, NextMove(s)));
    }
  }

  /** No interleaving gets stuck: from every state a run reaches, the program can by itself bring
      `Stop` to its end, in a bounded number of steps, even while it waits for a ticker or for the
      handler. */
  lemma NeverStuck(s: State, acts: seq<Act>)
    requires Initial(s) && IsRun(s, acts)
    ensures Inv(After(s, acts))
    ensures var t := After(s, acts);
            IsRun(t, WayOut(t)) && After(t, WayOut(t)).main == Returned && |WayOut(t)| <= Rank(t) <= 23
  {
    InitialInv(s);
    RunKeepsInv(s, acts);
    WayOutArrives(After(s, acts));
  }

  // ---------------------------------------------------------------------------------------
  // Why the blank line matters
  // ---------------------------------------------------------------------------------------

  /** With nothing booked below the header, a resize drops its own latch, and a tick after the
      handler completed paints: the guarantee rests on the blank line. */
  lemma NoBlankLineNoLatch(s: State)
    requires Started(s, 0)
    ensures var acts := [H(Winch), H(Enter), H(Judge(true, true))];
            && IsRun(s, acts) && After(s, acts).f.resized
            && Enabled(After(s, acts), T(Tick(0, true, true)))
            && Paints(After(s, acts), T(Tick(0, true, true)))
  {
    var acts := [H(Winch), H(Enter), H(Judge(true, true))];
    var s1 := Do(s, acts[0]);
    var s2 := Do(s1, acts[1]);
    var s3 := Do(s2, acts[2]);
    assert acts[1..] == [acts[1], acts[2]] && acts[1..][1..] == [acts[2]] && [acts[2]][1..] == [];
    assert IsRun(s2, [acts[2]]) && After(s2, [acts[2]]) == s3;
    assert IsRun(s1, acts[1..]) && After(s1, acts[1..]) == s3;
  }

  /** And with at least one row booked it holds: the guarantee over all interleavings is exactly
      the presence of a booked row at the start. */
  lemma LatchIffBlankLine(s: State, lines: nat)
    requires Started(s, lines)
    ensures lines >= 1 <==>
              forall acts, g, fits, changed | IsRun(s, acts) && After(s, acts).f.resized ::
                !Paints(After(s, acts), T(Tick(g, fits, changed)))
  {
    if lines == 0 {
      NoBlankLineNoLatch(s);
    } else {
      assert Inv(s);
      forall acts, g, fits, changed | IsRun(s, acts) && After(s, acts).f.resized
        ensures !Paints(After(s, acts), T(Tick(g, fits, changed)))
      {
        RunKeepsInv(s, acts);
      }
    }
  }
}
