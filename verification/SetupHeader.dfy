/**
 The setup wizard's live header: it owns the terminal's first rows, repaints them on a ticker, and
 counts everything printed below so that each repaint lands on its own rows.

 Each method is one event of `HeaderEvents`. The class keeps two terminals: `file.screen`, and the
 ghost `quiet`, which is the terminal as it would be had the header been printed once and never
 repainted.
 */
module SetupHeader {
  import opened Utf8
  import opened Terminal
  import opened RowCount
  import opened SelectBlock
  import opened HeaderPaint
  import opened Accounting
  import opened HeaderEvents
  import opened HeaderRun
  import opened UnbookedEcho
  import opened Sway

  /** The terminal behind standard output. */
  class Tty {
    var screen: Screen

    constructor (s: Screen)
      ensures screen == s
    {
      screen := s;
    }

    method Write(bytes: seq<byte>)
      modifies this`screen
      ensures screen == Feed(old(screen), Tokens(bytes))
    {
      screen := Feed(screen, Tokens(bytes));
    }
  }

  /** The settling redraw turns `u` into `w`. */
  ghost predicate Rests(u: View, readable: bool, painted: bool, w: View) {
    && (if u.f.animating && u.l.lastNL then Redraws(u, 0, readable, w) else w == u)
    && (painted <==> u.f.animating && u.l.lastNL && Repaints(u, readable))
  }

  lemma StopLeads(v: View, readable: bool, painted: bool, w: View, x: View)
    requires Formed(v) && !v.f.stopped && Rests(v.(f := v.f.(running := false)), readable, painted, w)
    requires x == w.(f := w.f.(stopped := true))
    ensures Leads(v, [Settle(readable)], x) && (painted <==> Paints(v, Settle(readable)))
  {
    SettleLeads(v, readable, w);
  }

  class Header {
    const file: Tty
    const frames: seq<Frame>
    const rows: nat
    const color: bool
    var bodyLines: nat
    var col: int
    var pendingWrap: bool
    var lastNL: bool
    var animating: bool
    var idx: int
    var dir: int
    var lastDrawn: int
    var running: bool
    var stopped: bool
    var scrolledOff: bool
    var accountingStale: bool
    ghost var home: int
    ghost var quiet: Screen
    ghost var repainted: bool
    ghost var afloat: bool

    ghost function Book(): (l: Ledger)
      reads this
    {
      Ledger(home, rows, bodyLines, col, pendingWrap, lastNL)
    }

    /** Everything the header and its terminal are. */
    ghost function Look(): (v: View)
      reads this, file
    {
      View(file.screen, quiet, Book(), Art(frames, color, idx, dir, lastDrawn, repainted),
           Flags(running, stopped, scrolledOff, accountingStale, animating, afloat))
    }

    constructor (file: Tty, frames: seq<Frame>, color: bool)
      requires frames != []
      ensures this.file == file && this.frames == frames && this.color == color && rows == |frames[0]|
      ensures bodyLines == 0 && col == 0 && !pendingWrap && lastNL
      ensures animating && idx == 0 && dir == 1 && !running && !stopped && !scrolledOff && !accountingStale
      ensures home == file.screen.cur.row && !repainted && !afloat
    {
      this.file := file;
      this.frames := frames;
      this.rows := |frames[0]|;
      this.color := color;
      bodyLines, col, pendingWrap, lastNL := 0, 0, false, true;
      animating, idx, dir, lastDrawn := true, 0, 1, -1;
      running, stopped, scrolledOff, accountingStale := false, false, false, false;
      home, repainted, afloat := file.screen.cur.row, false, false;
      quiet := file.screen;
    }

    /** Prints the first frame where the cursor stands. */
    method PaintInitial()
      requires frames != [] && forall i | 0 <= i < |frames[0]| :: Printable(frames[0][i])
      modifies this`lastDrawn, this`quiet, file`screen
      ensures quiet == file.screen == Feed(old(file.screen), FirstPaint(color, frames[0])) && lastDrawn == 0
    {
      FirstPaintComplete(color, frames[0]);
      TokensOfEncode(FirstPaint(color, frames[0]));
      file.Write(Encode(FirstPaint(color, frames[0])));
      quiet := file.screen;
      lastDrawn := 0;
    }

    // -------------------------------------------------------------------------------------
    // Writing
    // -------------------------------------------------------------------------------------

    /** Books the rows and the column that `b` advanced the terminal by. */
    method CountBytes(b: seq<byte>)
      requires b != []
      modifies this`bodyLines, this`col, this`pendingWrap, this`lastNL
      ensures Book() == Booked(file.screen.width, old(Book()), b)
    {
      var a := AdvanceRows(col, file.screen.width, pendingWrap, b);
      BookedFromZero(file.screen.width, Book(), Tokens(b));
      bodyLines := bodyLines + a.rows;
      col := a.col;
      pendingWrap := a.pending;
      lastNL := b[|b| - 1] == NL;
    }

    /** Forwards a write, of which the file accepts the first `n` bytes, and counts the rows it
        takes. */
    method Write(p: seq<byte>, n: nat)
      requires n <= |p|
      modifies this`bodyLines, this`col, this`pendingWrap, this`lastNL, this`quiet, file`screen
      ensures Look() == Wrote(old(Look()), p[..n])
    {
      FeedKeepsSize(file.screen, Tokens(p[..n]));
      file.Write(p[..n]);
      quiet := Feed(quiet, Tokens(p[..n]));
      if n > 0 {
        CountBytes(p[..n]);
      }
    }

    // -------------------------------------------------------------------------------------
    // Painting
    // -------------------------------------------------------------------------------------

    /** Emits the repaint: up over header and body, each row cleared and rewritten, back down. */
    method Paint(i: nat)
      requires Formed(Look()) && i < |frames|
      modifies this`lastDrawn, this`repainted, file`screen
      ensures Look() == Redrawn(old(Look()), i)
    {
      var ts := RedrawTokens(color, frames[i], bodyLines);
      RedrawTokensComplete(color, frames[i], bodyLines);
      TokensOfEncode(ts);
      file.Write(Encode(ts));
      lastDrawn := i;
      repainted := true;
    }

    /** Repaints the header with frame `i`, unless the header scrolled off, the accounting went
        stale, or header and body no longer fit a viewport whose height can be read. */
    method Redraw(i: nat, readable: bool) returns (painted: bool)
      requires Formed(Look()) && i < |frames|
      modifies this`scrolledOff, this`accountingStale, this`lastDrawn, this`repainted, file`screen
      ensures Redraws(old(Look()), i, readable, Look())
      ensures painted <==> Repaints(old(Look()), readable)
    {
      if scrolledOff {
        return false;
      }
      if accountingStale {
        if bodyLines != 0 {
          return false;
        }
        accountingStale := false;
      }
      if readable && rows + bodyLines >= file.screen.height {
        scrolledOff := true;
        return false;
      }
      Paint(i);
      return true;
    }

    /** One firing of the ticker. */
    method Tick(readable: bool) returns (painted: bool)
      requires Formed(Look())
      modifies this`idx, this`dir, this`scrolledOff, this`accountingStale, this`lastDrawn, this`repainted, file`screen
      ensures Leads(old(Look()), [Event.Tick(readable)], Look())
      ensures painted <==> Paints(old(Look()), Event.Tick(readable))
    {
      ghost var v := Look();
      if !running || !animating || !lastNL {
        LeadsOne(v, Event.Tick(readable), v);
        return false;
      }
      var (i, d) := NextPingPong(idx, dir, |frames|);
      idx, dir := i, d;
      if i == lastDrawn {
        TickLeads(v, readable, Look());
        return false;
      }
      KinIsFormed(v, Look());
      painted := Redraw(i, readable);
      TickLeads(v, readable, Look());
    }

    // -------------------------------------------------------------------------------------
    // Ticker lifecycle, seen from the one goroutine that asks the questions
    // -------------------------------------------------------------------------------------

    method StartTicker()
      modifies this`running
      ensures running == (old(running) || !stopped)
    {
      if running || stopped {
        return;
      }
      running := true;
    }

    method StopTicker()
      modifies this`running
      ensures !running
    {
      running := false;
    }

    method Suspend()
      modifies this`running
      ensures Look() == old(Look()).(f := old(Look()).f.(running := false))
    {
      StopTicker();
    }

    method Resume()
      requires Formed(Look())
      modifies this`running
      ensures Leads(old(Look()), Resumption(animating), Look())
    {
      ghost var v := Look();
      if !animating {
        LeadsNowhere(v);
        return;
      }
      StartTicker();
      LeadsOne(v, Event.Start, Look());
    }

    /** Settles the header at its resting frame and lets go of the terminal. */
    method Stop(readable: bool) returns (painted: bool)
      requires Formed(Look())
      modifies this`running, this`stopped, this`scrolledOff, this`accountingStale, this`lastDrawn, this`repainted,
          file`screen
      ensures Leads(old(Look()), [Settle(readable)], Look()) && stopped
      ensures painted <==> Paints(old(Look()), Settle(readable))
    {
      ghost var v := Look();
      if stopped {
        LeadsOne(v, Settle(readable), v);
        return false;
      }
      StopTicker();
      KinIsFormed(v, Look());
      painted := Rest(readable);
      ghost var w := Look();
      stopped := true;
      StopLeads(v, readable, painted, w, Look());
    }

    /** The resting frame, on a fresh line of a header that still moves. */
    method Rest(readable: bool) returns (painted: bool)
      requires Formed(Look())
      modifies this`scrolledOff, this`accountingStale, this`lastDrawn, this`repainted, file`screen
      ensures Rests(old(Look()), readable, painted, Look())
    {
      painted := false;
      if animating && lastNL {
        painted := Redraw(0, readable);
      }
    }

    /** The terminal changed size and reflowed to `s`. */
    method Reflow(s: Screen)
      modifies this`quiet, this`afloat, file`screen
      ensures Look() == old(Look()).(s := s, quiet := s, f := old(Look()).f.(afloat := true))
    {
      file.screen := s;
      quiet := s;
      afloat := true;
    }

    /** The handler finds the terminal still wide enough. */
    method Latch()
      requires Formed(Look())
      modifies this`accountingStale, this`scrolledOff, this`lastDrawn, this`repainted, this`afloat, file`screen
      ensures Leads(old(Look()), [Event.Latch], Look())
    {
      ghost var v := Look();
      accountingStale := true;
      ghost var u := Look();
      assert u == v.(f := v.f.(stale := true));
      if running && lastNL {
        KinIsFormed(v, u);
        var painted := Redraw(idx, true);
      }
      LatchLeads(v, Look());
      afloat := false;
    }

    /** The handler finds it too narrow: no more animation in this run. */
    method Degrade()
      modifies this`animating, this`afloat
      ensures Look() == old(Look()).(f := old(Look()).f.(animating := false, afloat := false))
    {
      animating := false;
      afloat := false;
    }

    /** The resize handler from its start to its end. */
    method OnResize(eligible: bool)
      requires Formed(Look())
      modifies this`running, this`animating, this`accountingStale, this`scrolledOff, this`lastDrawn, this`repainted,
          this`afloat, file`screen
      ensures Leads(old(Look()), ResizeHandling(old(animating), eligible), Look())
    {
      ghost var v := Look();
      if !animating {
        LeadsNowhere(v);
        return;
      }
      if !eligible {
        Suspend();
        ghost var v1 := Look();
        LeadsOne(v, Event.Suspend, v1);
        Degrade();
        LeadsOne(v1, Event.Degrade, Look());
        LeadsThen(v, [Event.Suspend], v1, [Event.Degrade], Look());
        return;
      }
      Latch();
    }

    // -------------------------------------------------------------------------------------
    // Prompts
    // -------------------------------------------------------------------------------------

    method SnapshotBodyLines() returns (n: nat)
      ensures n == bodyLines
    {
      n := bodyLines;
    }

    method ReconcileSelectBodyLines(preSelect: nat, blockRows: nat)
      modifies this`bodyLines, this`col, this`lastNL
      ensures bodyLines == preSelect + blockRows && col == 0 && lastNL
    {
      bodyLines := preSelect + blockRows;
      col := 0;
      lastNL := true;
    }

    /** The terminal echoes typed characters, past the header's counting. */
    method KernelEcho(typed: Text, entered: bool)
      modifies this`quiet, file`screen
      ensures Look() == Fed(old(Look()), Typed(typed, entered))
    {
      file.screen := Feed(file.screen, Typed(typed, entered));
      quiet := Feed(quiet, Typed(typed, entered));
    }

    /** Accounts for the rows an echoed answer took. */
    method NoteEchoedLine(answer: Text)
      requires Printable(answer)
      modifies this`bodyLines, this`col, this`pendingWrap, this`lastNL
      ensures Book() == BookedTokens(file.screen.width, old(Book()), Typed(answer, true))
    {
      BookedAnswer(file.screen.width, Book(), answer);
      var a := AdvanceRows(col, file.screen.width, pendingWrap, Encode(Typed(answer, true)));
      bodyLines := bodyLines + a.rows;
      col := 0;
      pendingWrap := false;
      lastNL := true;
    }

    /** The question, the echo of what is typed, and the booking of a completed answer. */
    method ReadLine(question: Text, typed: Text, answer: Text, entered: bool)
      requires Formed(Look()) && Printable(question) && Printable(typed) && Printable(answer)
      modifies this`bodyLines, this`col, this`pendingWrap, this`lastNL, this`quiet, file`screen
      ensures Leads(old(Look()), UnbookedEcho.ReadLine(question, typed, answer, entered), Look())
    {
      ReadLineHappens(Look(), question, typed, answer, entered);
      TellLine(question, typed, answer, entered);
    }

    method TellLine(question: Text, typed: Text, answer: Text, entered: bool)
      requires Printable(answer)
      modifies this`bodyLines, this`col, this`pendingWrap, this`lastNL, this`quiet, file`screen
      ensures Look() == Told(old(Look()), question, typed, answer, entered)
    {
      var bytes := Encode(Runes(question));
      AskAndEcho(bytes, typed, entered);
      if entered {
        NoteEchoedLine(answer);
      }
    }

    method AskAndEcho(question: seq<byte>, typed: Text, entered: bool)
      modifies this`bodyLines, this`col, this`pendingWrap, this`lastNL, this`quiet, file`screen
      ensures Look() == Fed(Wrote(old(Look()), question[..|question|]), Typed(typed, entered))
    {
      Write(question, |question|);
      KernelEcho(typed, entered);
    }

    /** A typed question. The answer, which is what was typed without the blanks around it, is booked if
        the operator ended it with Enter, and only then: not at end of input, after which the wizard goes
        on, and not when the read is cancelled. */
    method PromptLine(question: Text, typed: Text, answer: Text, entered: bool)
      requires Formed(Look()) && Printable(question) && Printable(typed) && Printable(answer)
      modifies this`bodyLines, this`col, this`pendingWrap, this`lastNL, this`running, this`quiet, file`screen
      ensures EventsOk(AskLine(question, typed, answer, entered, animating))
      ensures Leads(old(Look()), AskLine(question, typed, answer, entered, animating), Look())
    {
      ghost var v := Look();
      ghost var es := UnbookedEcho.ReadLine(question, typed, answer, entered);
      ReadLineOk(question, typed, answer, entered);
      Suspend();
      ghost var v1 := Look();
      LeadsOne(v, Event.Suspend, v1);
      ReadLine(question, typed, answer, entered);
      ghost var v2 := Look();
      LeadsFormed(v1, es, v2);
      Resume();
      LeadsThen(v1, es, v2, Resumption(animating), Look());
      LeadsThen(v, [Event.Suspend], v1, es + Resumption(animating), Look());
    }

    /** A y/N confirmation: printed through the header, read past it. */
    method PromptYesNo(question: seq<byte>, typed: Text, entered: bool)
      requires Formed(Look()) && Transcript(question) && Printable(typed)
      modifies this`bodyLines, this`col, this`pendingWrap, this`lastNL, this`quiet, file`screen
      ensures EventsOk(AskYesNo(question, typed, entered))
      ensures Leads(old(Look()), AskYesNo(question, typed, entered), Look())
    {
      AskYesNoHappens(Look(), question, typed, entered);
      AskAndEcho(question, typed, entered);
    }
  }

  // ---------------------------------------------------------------------------------------
  // Opening
  // ---------------------------------------------------------------------------------------

  /** Opens the header: first paint, the blank line below it, then the ticker. */
  method StartSetupHeader(file: Tty, frames: seq<Frame>, color: bool) returns (h: Header)
    requires file.screen.Valid() && file.screen.AtMargin()
    requires frames != [] && frames[0] != [] && Uniform(frames, |frames[0]|) && AllFit(frames, file.screen.width)
    modifies file
    ensures fresh(h) && h.file == file && h.frames == frames && h.rows == |frames[0]| && h.color == color
    ensures Opening(h.Look(), old(file.screen))
    ensures Inked(file.screen.cells, old(file.screen).cur.row, frames[0])
    ensures forall p: (int, int) | !InFrame(old(file.screen).cur.row, frames[0], p) ::
              SameCell(old(file.screen).cells, file.screen.cells, p)
    ensures Good(h.Look()) && InStep(h.Look()) && Follows(h.Look(), FirstCourse(old(file.screen), color, frames[0]))
  {
    ghost var s := file.screen;
    h := new Header(file, frames, color);
    h.PaintInitial();
    var blank := Encode([Newline]);
    TokensOfEncode([Newline]);
    assert blank[..|blank|] == blank == [NL];
    assert Account(file.screen.width, Tally(0, 0, false), [Newline]) == Tally(0, 1, false);
    h.Write(blank, |blank|);
    h.StartTicker();
    OpeningIsGood(h.Look(), s);
    OpenedShows(s, color, frames[0]);
  }
}
