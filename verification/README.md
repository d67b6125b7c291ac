# Moltnet CLI: a Dafny model of its hard parts

Moltnet is a network for agents; its command-line tool sets networks up, pairs them, and reads and
writes messages. This project models the parts of that tool in which being wrong is easy and hard to
notice, and proves what they promise for every input, every run and every interleaving.

`dafny verify dfyconfig.toml` checks all of it.

## What is modelled

**The setup wizard's live header.** A banner at the top of the terminal is repainted in place while
the wizard prints and asks questions below it. The header knows where it is only by counting rows.
`Terminal` is a terminal with deferred autowrap, scrolling, margins and cells; `RowCount` is the row
counter and `SplitWrites` what happens when a write is cut inside a token; `SelectBlock`, `SelectKeys`
and `SelectSession` are the arrow-key menu, which redraws itself in place, and `BlockShow` says what it
shows, character by character; `HeaderPaint` is one repaint;
`Accounting` says what the header knows and what the terminal shows. `HeaderEvents` lists everything
that can happen, one lock section or one act of the terminal at a time, and `HeaderRun` compares whole
runs of it with a wizard whose header is painted once and never again. `SetupHeader` is the header
object and `Wizard` the prompts, each proved to carry out exactly its events.

The main result is about whole runs. A plain run consists of writes of complete tokens, typed answers
booked as they were typed, select prompts on a fresh line, suspensions, starts, ticks and the end
(`OrdinaryRuns`). From the first paint on, with no condition left, every repaint of such a run shows its
frame on the header rows and changes nothing else; the terminal is, outside those rows, cell for cell
what it would be without repaints, cursor and viewport included (`OrdinaryRuns.PlainRunIsSound`); and
bodyLines is the cursor's true distance below the header, in the viewport or not
(`OrdinaryRuns.PlainDistanceIsBooked`). An ordinary run may stray from that: blanks around an answer,
answers nobody books, selects on an open line, resizes. It is described by the rows its lines take, one
completed line at a time, and each of these conditions is exact (`OrdinaryRuns.CompletedLineIff`).
What the header rows themselves show is the subject of `HeaderShow`: the first frame until the first
repaint, then the frame painted last, and for ticks the next frame of the triangle wave.
`Wizard.RunSetup` states all of it for the running program, and `Concurrent.OpenedInterleavingIsSound` for
every interleaving of its goroutines.

Behind it is an equivalence about where a repaint goes. While header and booked rows fit the viewport,
its bytes climb to the header's first row and come back to the cursor's row if and only if the header's
count is the true one (`HeaderRun.PaintLandsIff`), and over a run every repaint does if and only if that
is so each time (`HeaderRun.RunIsSoundIff`). The count is not always right: characters that the terminal
echoes are booked only where a typed answer ends in Enter. `UnbookedEcho` says exactly what the other
cases cost, and `PlainSelect` what the numbered prompt costs that runs when raw mode cannot be engaged.

`Interleaving` is the header under concurrency: questioning goroutine, ticker goroutines and the
SIGWINCH handler as steps of one state machine, one step per stretch that holds the lock and per channel
operation. `Concurrent` joins the two: every interleaving is a run of events.

**Reading since last.** `CursorKeys`, `UnreadSpec`, `Unread` and `ReadUnread`: stored cursors, paging,
skipping pages of one's own messages, printing before advancing. Other participants post between any
two steps; every fetch, the print and every cursor read and write may fail, as a schedule settled
beforehand has it, so that a check can be shown to fail only where something did. The server is its
paging contract:
after a cursor, the next messages oldest first, and whether more follow.

**Files among crashes.** `Publish` is create-if-missing among any number of processes, each system
call a step, with kills, failures and power loss anywhere. `Pairing` is invite, revoke and
`invite show` over the config and the receipt, with a crash between any two file operations and
restores that can be torn.

**Text.** `TurnBlock` (the marked block an install keeps in a user's file), `ShellQuote` (printed
command lines, read back by a POSIX lexer), `TextSniff` (text or binary from 512 bytes),
`BannerFrames` and `BannerCrop` (splitting, cropping and deduplicating the banner's frames).

**Merging and choosing.** `ApplyAgents`, `LeastPrivilege`, `ConsoleId`.

`Utf8`, `Decimal`, `Arithmetic`, `Sway` and `Wrappers` are shared vocabulary.

## What turned out false, and exactly when it holds

- The row counter skips every control sequence, so on a stream that moves the cursor up or down its
  row count is off by the net climb and by nothing else (`RowCount.CountIsOffByClimb`); it is right if
  and only if the climbs cancel. The select prompt's reconciliation exists for this reason.
- A write cut inside a token charges characters that are not there: what is left of a control sequence,
  all of one cut behind its escape, all bytes but one of a rune. It counts like the whole write if and
  only if the rest of it ends a line, and that line takes no more rows for the excess
  (`SplitWrites.CutCountsRightIff`).
- A typed answer is booked without the blanks around it; the count stays right if and only if these took
  no row (`UnbookedEcho.BookedAnswerIff`), which they can (`UnbookedEcho.TrimmedBlanksMiscount`).
- A typed question ended by end of input is not booked, yet the wizard goes on. The next line sets the
  count right if and only if it takes as many rows behind the typed characters as without them
  (`UnbookedEcho.EndOfInputIff`); with nothing typed that is always so.
- The y/N confirmation for a workers.dev name is read past the header, which the header's comments
  overlook ("every prompt suspends the ticker first"). The next line sets the count right if and only if,
  printed right behind the question, it would take the rows of both lines (`UnbookedEcho.YesNoIff`); when
  everything fits one row it never does, and the next repaint lands one row low, over the transcript. The
  same holds where the answer leads on to a typed question (`UnbookedEcho.DeclinedIff`).
- When raw mode cannot be engaged, a select runs as a numbered list under the live header, and its answer
  is read past the header. The comment that its prints "Write already counted correctly"
  (setup_header_prompts.go:33-36) overlooks the echo: the count is right after the check line if and only
  if prompt, answer and check line take the rows of prompt and check line alone, so never when everything
  fits one row (`PlainSelect.PlainSelectIff`).
- A select question asked while a line is open is measured from column 0; the count is right if and only
  if the question's line takes as many rows from where it stands (`UnbookedEcho.SelectIff`), and it need
  not (`UnbookedEcho.OpenLineSelectMiscounts`).
- A viewport height that cannot be read holds no repaint back. One that comes once header and body fill
  the viewport paints the viewport's first rows (`HeaderRun.TallPaintMisses`); it lands on the header if
  and only if the header is at the viewport's first row and the cursor on its last, which no right count
  allows (`HeaderRun.TallPaintLandsIff`).
- A tick between the terminal's reflow and the end of the resize handler may paint, and miss
  (`UnbookedEcho.ReflowedPaintMisses`); ordinary runs have none there, and from the handler's end on no
  repaint is possible (`HeaderEvents.LatchSeals`).
- Without a booked row below the header a completed resize would not stop later repaints; the blank
  line the wizard prints first is exactly what makes the guarantee hold
  (`Interleaving.LatchIffBlankLine`).
- Receipt and pairing can disagree after a crash when an invite names an id already paired with
  another token, because the receipt is written first; an invite is safe if and only if the id was not
  paired with another token (`Pairing.InviteSafeIffFitting`).
- Installing a second rule over a first gives what installing the second alone would, if and only if
  the first rule holds no end marker (`TurnBlock.InstallLastWinsIff`).
- A printed command parses back if and only if no argument starts with `#` without holding a character
  that brings quotes (`ShellQuote.ParsesBackIff`).
- The comment above the sniffer speaks of valid UTF-8 without NUL; the code also lets up to three
  arbitrary non-NUL bytes pass at the end of a short file (`TextSniff.ShortJunkPasses`). What it accepts
  is exactly `TextSniff.AcceptedIffNearlyText`.

## Model

| member | source | states |
|---|---|---|
| `RowCount.AdvanceRows` | cmd/moltnet/setup_advance_rows.go:101-163 | the byte loop computes the token-by-token tally of rows, column and pending wrap, on any bytes, torn sequences and invalid encodings included |
| `RowCount.CountRefinesTerminal` | cmd/moltnet/setup_advance_rows.go:56-100 | on text, line ends, styling and erasing, the tally advances exactly as the deferred-autowrap terminal: rows, column, pending iff parked at the width |
| `RowCount.CountIsOffByClimb` | cmd/moltnet/setup_advance_rows.go:56-100 | with cursor motion in the stream, column and pending still agree and the rows differ by exactly the net climb |
| `RowCount.CountRightIffNoNetClimb` | cmd/moltnet/setup_advance_rows.go:101-163 | the row count is right if and only if the climbs cancel |
| `RowCount.SplitAtTokenBoundary` | cmd/moltnet/setup_advance_rows.go:101-163 | two writes split at a token boundary count like one write of all their bytes |
| `RowCount.LineTakesItsRows` | cmd/moltnet/setup_advance_rows.go:101-163 | a line of k characters and its newline takes max(1, ceil(k/width)) rows, styled or not, and one row where the width is unknown |
| `RowCount.UnknownWidthCountsNewlines` | cmd/moltnet/setup_advance_rows.go:101-163 | with the width unknown only newlines count |
| `RowCount.LineFrom` | cmd/moltnet/setup_advance_rows.go:101-163 | the rest of a line from any column takes the rows of the whole line from column 0 |
| `RowCount.ShiftedCountIff` | cmd/moltnet/setup_advance_rows.go:101-163 | a stream met e characters further right counts the same if and only if it ends a line that takes the same rows from there |
| `SplitWrites.CutAddsCharacters` | cmd/moltnet/setup_advance_rows.go:56-100 | a write cut inside a token is charged exactly so many characters too many, for every token and cut |
| `SplitWrites.CutCountsRightIff` | cmd/moltnet/setup_advance_rows.go:56-100 | a cut write counts like the whole if and only if its rest ends a line that takes no more rows for the excess |
| `SplitWrites.CutsAtWork` | cmd/moltnet/setup_advance_rows.go:56-100 | a control sequence and a rune that are miscounted when cut, and a newline that hides it |
| `Terminal.TokensOfEncode` | cmd/moltnet/setup_advance_rows.go:101-163 | complete tokens written as bytes are read back as the same tokens, so a scan never mistakes one for another |
| `Terminal.SequenceEnds` | cmd/moltnet/setup_advance_rows.go:101-163 | ESC [ and one more byte is a control sequence if and only if that byte is one of @ to ~ |
| `Terminal.FeedInk` | cmd/moltnet/setup_advance_rows.go:56-100 | text is an overlay: its cells over the old ones, the cursor carried along, the viewport scrolled just as far as needed |
| `Utf8.RuneIsScalar` | cmd/moltnet/setup_advance_rows.go:140-160 | the byte strings taken for one rune are encodings of Unicode scalar values |
| `Utf8.ScalarIsRune` | cmd/moltnet/setup_advance_rows.go:140-160 | and every scalar value has one |
| `SelectBlock.OptionPiece` | cmd/moltnet/setup_prompt_select.go:260-270 | an option's line is equally wide whether current or not, coloured or plain |
| `SelectBlock.BlockRows` | cmd/moltnet/setup_prompt_select.go:332-339 | the option block takes the same rows whichever option is current and whether colour is on |
| `SelectBlock.BlockRowsInOnePass` | cmd/moltnet/setup_prompt_select.go:355-358 | measuring question and options apart equals one pass over both |
| `SelectBlock.BlockTravels` | cmd/moltnet/setup_prompt_select.go:332-339 | the measured rows are the rows the block takes on the terminal, scrolling included |
| `SelectBlock.ReprintInPlace` | cmd/moltnet/setup_prompt_select.go:300-307 | climbing back over a text and printing one of the same shape leaves the screen a fresh printing would: cells, cursor, viewport |
| `SelectBlock.RedrawIsFreshPaint` | cmd/moltnet/setup_prompt_select.go:300-307 | every redraw, from any option to any option, equals a fresh printing of the new block on the same rows |
| `BlockShow.BlockShows` | cmd/moltnet/setup_prompt_select.go:260-307 | cell by cell and at any width, every option shows its title, its hint behind three blanks, and the mark if and only if it is the current one |
| `BlockShow.QuestionShows` | cmd/moltnet/setup_prompt_select.go:173-176 | the question stands behind two blanks |
| `SelectSession.PromptedIsTranscript` | cmd/moltnet/setup_prompt_select.go:173-251 | on a viewport taller than the block, a whole prompt with all its redraws leaves exactly question, block for the option marked last, and the blank line of an answer |
| `SelectSession.PlayedAnswer` | cmd/moltnet/setup_prompt_select.go:173-251 | a confirmed answer is where the decoded keys lead |
| `SelectSession.PlayedVerdict` | cmd/moltnet/setup_prompt_select.go:203-251 | for every byte stream: Enter and end of input confirm, Ctrl-C cancels, a failed read fails, unless the context was cancelled before |
| `SelectSession.PlayedArrows` | cmd/moltnet/setup_prompt_select.go:203-251 | and the answer is start plus the ESC [ B sequences less the ESC [ A sequences up to that end, modulo the number of options |
| `SelectKeys.Reader.ReadSelectKey` | cmd/moltnet/setup_select_key.go:32-65 | one key is decoded from exactly the bytes that form it, end of input and read failure told apart |
| `SelectKeys.KeyBytes` | cmd/moltnet/setup_select_key.go:32-65 | ESC [ A, ESC [ B, CR or LF, and 0x03 at the front are up, down, confirm and cancel, and no other front is |
| `SelectKeys.SpelledMoves` | cmd/moltnet/setup_select_key.go:32-65 | however strokes are spelled one behind the other, ignored ones included, their keys are read back in order |
| `SelectKeys.SpelledOnce` | cmd/moltnet/setup_select_key.go:32-65 | every byte stream is strokes and an end in exactly one way |
| `SelectKeys.WalkIsModular` | cmd/moltnet/setup_prompt_select.go:173-251 | after any key stream the selection is (start + downs - ups) mod the number of options |
| `HeaderPaint.RedrawRepaints` | cmd/moltnet/setup_header_render.go:83-110 | while header and body are shorter than the viewport, neither cursor move clamps, even after scrolling: only the header rows change and the cursor returns |
| `HeaderPaint.RedrawLandsOffBy` | cmd/moltnet/setup_header_render.go:83-110 | a redraw that counts too few rows lands lower by exactly the difference and still returns the cursor |
| `HeaderPaint.RedrawClamps` | cmd/moltnet/setup_header_render.go:38-53 | a redraw not held back once header and body fill the viewport paints the viewport's first rows |
| `HeaderPaint.PaintFrameShows` | cmd/moltnet/setup_header_render.go:83-110 | a painted frame is what its rows show, with nothing left over from the previous frame |
| `HeaderPaint.PaintFrameElsewhere` | cmd/moltnet/setup_header_render.go:83-110 | painting a frame changes no cell of any other row |
| `HeaderPaint.FeedOutside` | cmd/moltnet/setup_header_render.go:83-110 | what the header rows show never influences anything else, whatever is written next |
| `HeaderPaint.InkStaysBelow` | cmd/moltnet/setup_header.go:225-238 | text written below the header keeps its distance known and leaves every header row alone |
| `Accounting.TextStaysSynced` | cmd/moltnet/setup_header.go:225-238 | counting all text that appears below the header keeps the tally the cursor's true distance, column and pending wrap, and no header row changes |
| `Accounting.FirstPaintSyncs` | cmd/moltnet/setup_header_render.go:20-28 | after the first paint the header occupies exactly its own rows and nothing is booked |
| `Accounting.FirstPaintShows` | cmd/moltnet/setup_header_render.go:20-28 | every character of the first frame is in its place, row below row, and no other cell has changed |
| `Accounting.SelectKeepsGood` | cmd/moltnet/setup_header_prompts.go:70-79 | where the option block fits the viewport a select prompt only printed text; where it does not, the reconciled count alone rules a readable repaint out |
| `Accounting.RedrawKeepsGood` | cmd/moltnet/setup_header_render.go:83-110 | a repaint whose bytes climb to the header and come back shows its frame, changes nothing else and keeps the invariant, whatever the count |
| `Accounting.RedrawOffMark` | cmd/moltnet/setup_header_render.go:83-110 | a repaint with a wrong count goes over other rows: as far below the header as rows were not booked, or as far above as too many were, at most to the viewport's first row |
| `HeaderEvents.EventKeepsGood` | cmd/moltnet/setup_header_render.go:30-318 | every event keeps the invariant provided that it paints, if at all, where its bytes reach the header and not between a reflow and its handler; and then it paints the header rows only |
| `HeaderEvents.LatchSeals` | cmd/moltnet/setup_header_signal_unix.go:105-127 | with a row booked the handler's own redraw never paints, and no later one can |
| `HeaderRun.EventFollows` | cmd/moltnet/setup_header_render.go:30-318 | every event keeps the header on the course of a wizard that is never repainted, its count and the true one |
| `HeaderRun.PaintLandsIff` | cmd/moltnet/setup_header_render.go:83-110 | before any reflow and while header and booked rows fit the viewport, the bytes of a paint climb to the header's first row and return to the cursor's row if and only if the booked tally is the true one |
| `HeaderRun.TallPaintLandsIff` | cmd/moltnet/setup_header_render.go:38-53 | once they do not fit, and the height cannot be read, a paint lands if and only if the header is at the viewport's first row and the cursor on its last |
| `HeaderRun.TallPaintMisses` | cmd/moltnet/setup_header_render.go:38-53 | with a right count such a paint never lands: it goes over the viewport's first rows |
| `HeaderRun.RunIsSoundIff` | cmd/moltnet/setup_header_render.go:30-318 | over every run that does not tick between a reflow and its handler, all paints land if and only if the tallies agree at each of them (or the case above holds); then each shows its frame on the header rows and changes nothing else, and the terminal outside them is that of a header painted once |
| `HeaderRun.ReckonedRunsLand` | cmd/moltnet/setup_header_render.go:140-152 | if the replayed tallies agree at every tick on a fresh line, every paint lands; `OrdinaryRuns` gives the runs that do |
| `UnbookedEcho.BookedAnswerIff` | cmd/moltnet/setup_header_render.go:236-282 | an answer ended by Enter and booked without the blanks around it keeps the count right if and only if the blanks took no row |
| `UnbookedEcho.EndOfInputIff` | cmd/moltnet/setup_questions.go:126-139 | after end of input the next line sets the count right if and only if it takes as many rows behind the typed characters as without them; else it is off by the difference |
| `UnbookedEcho.EndOfInputIsBenign` | cmd/moltnet/setup_prompt_line_ctx.go:39-62 | end of input with nothing typed changes nothing |
| `UnbookedEcho.EndOfInputMiscounts` | cmd/moltnet/setup_questions.go:126-139 | 17 columns of question, 40 typed, 44 of check line on 80 columns: one row short |
| `UnbookedEcho.YesNoIff` | cmd/moltnet/setup_pair_open.go:249-288 | after a y/N answer the next printed line sets the count right if and only if printed behind the question it would take the rows of both lines; else it is off by the difference |
| `UnbookedEcho.DeclinedIff` | cmd/moltnet/setup_pair_open.go:277-288 | the same where the next completed line is a typed question and its booked answer |
| `UnbookedEcho.YesNoMiscounts` | cmd/moltnet/uninstall.go:391-400 | whenever question, answer and next line each fit one row, the count is one row short |
| `UnbookedEcho.SelectIff` | cmd/moltnet/setup_prompt_select.go:309-331 | a select asked on an open line is counted right if and only if its question's line takes as many rows from there as from column 0 |
| `UnbookedEcho.TrimmedBlanksMiscount` | cmd/moltnet/setup_header_render.go:236-282 | 80 columns typed behind 17, of which 10 are booked, on 80 columns: one row short |
| `UnbookedEcho.OpenLineSelectMiscounts` | cmd/moltnet/setup_prompt_select.go:309-331 | a 20-character select question behind 70 columns, on 80 columns: one row short |
| `UnbookedEcho.ReflowedPaintMisses` | cmd/moltnet/setup_header_signal_unix.go:105-127 | a tick between a reflow that left the cursor one row lower and its handler paints one row below the header |
| `UnbookedEcho.MiscountedPaintMisses` | cmd/moltnet/setup_header_render.go:83-110 | a paint on the margin with any wrong count goes over rows other than the header's, by exactly the rows miscounted or to the viewport's first row |
| `OrdinaryRuns.CompletedLineIff` | cmd/moltnet/setup_header_render.go:236-282 | a line the header completes, by a print, a booked answer or a select, leaves the count right if and only if the lines on the screen take the rows counted for it |
| `OrdinaryRuns.StepStays` | cmd/moltnet/setup_header.go:225-238 | every allowed event keeps booked and true place on the line as their lengths say; between completed lines they are the same |
| `OrdinaryRuns.OrdinaryIsReckoned` | cmd/moltnet/setup_header_render.go:140-152 | over every ordinary run the tallies agree at every tick that could paint |
| `OrdinaryRuns.OrdinaryRunIsSound` | cmd/moltnet/setup_header_render.go:30-318 | every paint of an ordinary run shows its frame on the header rows and changes nothing else; the terminal outside them is that of a header never repainted |
| `OrdinaryRuns.DistanceIsBooked` | cmd/moltnet/setup_header.go:88-112 | after an ordinary run, on every fresh line and whenever nothing typed is unbooked, bodyLines is the cursor's true distance below the header, in the viewport or scrolled off it, given option blocks shorter than the viewport |
| `OrdinaryRuns.AskIsPlain` | cmd/moltnet/setup_header_prompts.go:87-96 | a typed question whose answer has no blanks around it is plain wherever it is asked |
| `OrdinaryRuns.ChooseIsPlain` | cmd/moltnet/setup_header_prompts.go:37-47 | a select question on a fresh line is plain |
| `OrdinaryRuns.PlainIsOrdinary` | cmd/moltnet/setup_header_render.go:236-282 | every plain run is ordinary: its row conditions hold by themselves |
| `OrdinaryRuns.PlainRunIsSound` | cmd/moltnet/setup_header.go:173-238 | every run of complete-token writes, answers booked as typed, selects on a fresh line and ticks, from the first paint on: all paints touch the header rows only and the rest of the terminal is that of a header painted once |
| `OrdinaryRuns.PlainDistanceIsBooked` | cmd/moltnet/setup_header.go:88-112 | and bodyLines is the cursor's true distance below the header whenever no answer is being typed |
| `HeaderShow.RunShows` | cmd/moltnet/setup_header_render.go:83-110 | over a run whose paints land, with blocks that fit and no reflow, the header rows show the frame painted last, and the first frame as long as there was no paint |
| `HeaderShow.OrdinaryRunShows` | cmd/moltnet/setup_header_render.go:83-110 | so does every ordinary run from the first paint on |
| `HeaderShow.EndsAtRest` | cmd/moltnet/setup_header_render.go:302-318 | a run whose end paints leaves the resting frame |
| `HeaderShow.TicksPaintTheWave` | cmd/moltnet/setup_header_render.go:117-152 | whatever happens in between, the tick that paints after k others that moved the sway shows frame k + 1 of the triangle wave |
| `PlainSelect.PlainSelectIff` | cmd/moltnet/setup_prompt_select.go:86-111 | the numbered prompt from a right count: right again after the check line if and only if the rows shown are those of prompt and check line alone; one row short when all fits one row |
| `PlainSelect.ListReads` | cmd/moltnet/setup_prompt_select.go:86-97 | the numbered list in letters: question, numbers from 1, the star in front of the default only, titles and hints |
| `PlainSelect.PromptReads` | cmd/moltnet/setup_prompt_select.go:99-102 | the prompt in letters |
| `PlainSelect.CheckReads` | cmd/moltnet/init_summary.go:224-230 | the check line in letters |
| `SetupHeader.Header.Write` | cmd/moltnet/setup_header.go:225-238 | exactly the accepted bytes reach the terminal and are booked; nothing else changes |
| `SetupHeader.Header.Redraw` | cmd/moltnet/setup_header_render.go:83-110 | paints if and only if not scrolled off, not stale, and rows + bodyLines < height or the height cannot be read; otherwise the terminal is untouched and the latch set |
| `SetupHeader.Header.Tick` | cmd/moltnet/setup_header_render.go:140-152 | carries out exactly the tick event: steps the sway and paints if and only if running on a fresh line with a new frame and a repaint possible |
| `SetupHeader.Header.Stop` | cmd/moltnet/setup_header_render.go:302-318 | carries out exactly the settling event, once: the resting frame if and only if that is still possible |
| `SetupHeader.Header.OnResize` | cmd/moltnet/setup_header_signal_unix.go:105-127 | one call of the handler is the latch, or the stopped ticker and the degradation, or nothing |
| `SetupHeader.Header.NoteEchoedLine` | cmd/moltnet/setup_header_render.go:270-282 | books exactly the rows the echoed answer and its newline take from the current column |
| `SetupHeader.Header.PromptLine` | cmd/moltnet/setup_header_prompts.go:87-96 | suspends, prints, echoes, books the trimmed answer if and only if Enter ended it, and resumes; end of input and a cancelled read book nothing |
| `SetupHeader.Header.PromptYesNo` | cmd/moltnet/uninstall.go:391-400 | prints the question through the header and echoes the answer past it; nothing else |
| `SetupHeader.StartSetupHeader` | cmd/moltnet/setup_header.go:173-210 | first paint and blank line: the first frame stands on the header rows and no other cell has changed; the header is on course with one row booked and one row below it, ticker running |
| `Sway.IsTriangleWave` | cmd/moltnet/setup_header_render.go:117-129 | the idle sway visits the frames as a triangle wave of period 2(n-1) |
| `Wizard.SelectOptionsRows` | cmd/moltnet/setup_prompt_select.go:332-339 | the measurement is the sum of the options' own rows, independent of current option and colour |
| `Wizard.SelectBlockRows` | cmd/moltnet/setup_prompt_select.go:355-358 | question rows plus option rows |
| `Wizard.RenderSelectOptions` | cmd/moltnet/setup_prompt_select.go:300-307 | prints the block, after the climb when redrawing on a real terminal, and nothing else |
| `Wizard.PromptSelectInteractive` | cmd/moltnet/setup_prompt_select.go:173-251 | for every key stream, on any terminal: outcome, marked option and printed bytes are those the stream spells, and the returned rows are the measured ones |
| `Wizard.PromptSelectPlain` | cmd/moltnet/setup_prompt_select.go:86-111 | prints question and numbered options one write each, then prompt, unbooked echo and, once an option was recognised, the check line; nothing else |
| `Wizard.SetupPromptSelect` | cmd/moltnet/setup_header_prompts.go:37-47 | a select under the header, on a fresh line or not, is suspension, prompt and resumption; in raw mode the answer is (default + ESC [ B - ESC [ A) mod n of the bytes typed up to their end, and Enter alone gives the default; without raw mode the numbered prompt runs and nothing is reconciled |
| `Wizard.Handle` | cmd/moltnet/setup_header_prompts.go:37-96 | the header carries out every event exactly |
| `Wizard.RunWizard` | cmd/moltnet/setup_header_render.go:30-110 | any run is the run of its events; in an ordinary one every paint shows its frame on the header rows and changes nothing else, and the terminal outside them equals the replay without repaints |
| `Wizard.RunSetup` | cmd/moltnet/setup_header.go:173-238 | from the first paint to the stop, in terms of the original terminal: after an ordinary or plain run the terminal outside the header rows is that of a header painted once, on a fresh line bodyLines is the true distance, and the header rows show the first frame or the frame painted last |
| `Interleaving.StepKeepsInv` | cmd/moltnet/setup_header_render.go:140-318 | every step of every goroutine, the select prompt's snapshot and reconciliation included, keeps the phase invariant and never clears a latch |
| `Interleaving.EveryPaintIsSafe` | cmd/moltnet/setup_header_render.go:140-318 | in every interleaving no paint happens between Suspend and Resume, after a completed resize handler, after Stop or on an open line; no stop channel is closed twice |
| `Interleaving.LatchesStick` | cmd/moltnet/setup_header_render.go:83-110 | scrolledOff and accountingStale never clear |
| `Interleaving.NeverStuck` | cmd/moltnet/setup_header_signal_unix.go:53-73 | from every reachable state Stop can be brought to its end within 23 steps, even while it waits for a ticker or for a handler that is stopping the ticker; only a prompt being read needs something from outside, the return of its read |
| `Interleaving.TickerRuns` | cmd/moltnet/setup_header_render.go:164-234 | in every interleaving, between the prompts the ticker runs as long as the header moves and no handler is taking it away, so every suspension was resumed |
| `Interleaving.NothingIsLeft` | cmd/moltnet/setup_header_render.go:302-318 | when Stop returns, every ticker ever started was closed once and is gone, the handler is gone, and no resize waits for it |
| `Interleaving.NoResizeIsLost` | cmd/moltnet/setup_header_signal_unix.go:53-73 | a resize that comes before Stop has unsubscribed has been handled by the time Stop returns |
| `Interleaving.SelectIsReconciled` | cmd/moltnet/setup_header_prompts.go:37-79 | whatever happens during a select prompt, the row count afterwards is the one it found and the rows it measured |
| `Interleaving.NoBlankLineNoLatch` | cmd/moltnet/setup_header_render.go:83-110 | with nothing booked, a tick after a completed resize paints |
| `Interleaving.LatchIffBlankLine` | cmd/moltnet/setup_header.go:173-210 | the resize guarantee over all interleavings holds if and only if a row is booked at the start |
| `Concurrent.StepStaysTied` | cmd/moltnet/setup_header_render.go:140-318 | every step of every goroutine is at most one event, and changes the shared fields as that event does |
| `Concurrent.PaintsAlike` | cmd/moltnet/setup_header_render.go:140-152 | a step of a goroutine paints exactly when its event does |
| `Concurrent.InterleavingIsARun` | cmd/moltnet/setup_header_render.go:140-318 | every interleaving does to header and terminal what the run of its events does |
| `Concurrent.EveryInterleavingIsSound` | cmd/moltnet/setup_header_render.go:30-318 | in every interleaving whose events are an ordinary run, paints touch the header rows only and the terminal outside them is that of a header never repainted |
| `Concurrent.EveryPaintIsSafe` | cmd/moltnet/setup_header_render.go:140-318 | a paint of the joined machine happens outside suspensions, before any completed handler and before Stop returns |
| `Concurrent.OpenedInterleavingIsSound` | cmd/moltnet/setup_header.go:173-238 | the same from the state the opened header is in, for ordinary and plain runs; the header rows show the first frame or the one painted last, and on a fresh line bodyLines is the true distance |
| `Concurrent.OpenedPaintIsSafe` | cmd/moltnet/setup_header.go:173-210 | the safety of paints from that state |
| `CursorKeys.UnescapeEscape` | cmd/moltnet/read_cursor.go:89-127 | unescaping inverts escaping on all byte strings |
| `CursorKeys.SplitOfKey` | cmd/moltnet/read_cursor.go:155-157 | splitting a key at its colons gives exactly its escaped components |
| `CursorKeys.KeyInjective` | cmd/moltnet/read_cursor.go:89-157 | two keys are equal if and only if identity, kind and id are, agent against operator included |
| `CursorKeys.AgentKeyAtWork` | cmd/moltnet/read_cursor.go:89-127 | an agent's key in letters, a blank and a colon escaped |
| `CursorKeys.OperatorKeyAtWork` | cmd/moltnet/read_cursor.go:89-127 | an operator's key in letters |
| `Unread.AdvanceKeeps` | cmd/moltnet/read_cursor.go:204-211 | moving one cursor keeps every other target's promise |
| `Unread.AllShownIsReady` | cmd/moltnet/read_unread.go:23-103 | once all fetched pages are shown, every cursor may move to its page's end without passing unprinted news |
| `Unread.AllShownKeeps` | cmd/moltnet/read_unread.go:74-96 | a print cut short at any message loses nothing |
| `Unread.ShownAtIsExact` | cmd/moltnet/read_unread.go:186-212 | printing a page extends a target's exact account to the page's end, each message once, in log order |
| `ReadUnread.Inbox.FetchTarget` | cmd/moltnet/read.go:206-222 | one request served by the paging contract, with anything posted before it; it fails if and only if the server cannot be reached |
| `UnreadSpec.PagesAre` | internal/store/page.go:17-73 | the paging contract itself: without a cursor the end of the log, with one what follows it, and whether there is more; the server takes a limit of 0 for 100 and one above 500 for 500 |
| `ReadUnread.Inbox.FetchSinceLast` | cmd/moltnet/read.go:152-190 | the page behind a retained cursor begins right after it; nothing is advanced; it fails if and only if the cursor file cannot be read or the server cannot be reached |
| `ReadUnread.Inbox.AdvanceSinceLast` | cmd/moltnet/read.go:195-200 | the cursor moves to the newest fetched message or nothing changes; it fails if and only if the write does, and may then have done either |
| `ReadUnread.Inbox.FetchSkippingOwnPages` | cmd/moltnet/read_unread.go:113-128 | consumes only pages of one's own messages, moves no other target's cursor, takes at most 11 fetches, and stops short of them only at a page that is the last or not all its own; it fails if and only if a request, a read or a write does |
| `ReadUnread.Inbox.FetchAll` | cmd/moltnet/read_unread.go:23-103 | every collected page is pending behind its cursor; the loop stops early if and only if something failed, and every target in front of one it went on to was fetched |
| `ReadUnread.Inbox.AdvanceAll` | cmd/moltnet/read_unread.go:23-103 | every shown target lands at its page's end, every other stays |
| `ReadUnread.CheckIsExact` | cmd/moltnet/read_unread.go:23-103 | a check whose advances all succeed has printed exactly the news up to each cursor, once, in log order |
| `ReadUnread.CheckCatchesUp` | cmd/moltnet/read_unread.go:23-103 | a target fetched by a check whose advances succeed has come at least one page on, or to the end of its log |
| `ReadUnread.Inbox.RunReadUnread` | cmd/moltnet/read_unread.go:23-103 | with any failure anywhere, a print that broke off included, no cursor passes a message by someone else that was not printed; without a failed print or advance the account stays exact; the check ends normally if and only if nothing failed, and then, as for targets in front of a failed fetch, every cursor has come a page on or to the end of its log |
| `ReadUnread.Inbox.RunChecks` | cmd/moltnet/read_unread.go:23-140 | the same over any number of checks: nothing is lost, the checks are clean if and only if nothing failed, and then the account is exact |
| `Publish.StepKeepsInv` | cmd/moltnet/init_checkout.go:278-394 | every step of every process, kills, failures and power loss included, keeps the path either foreign or durably complete |
| `Publish.NeverPartial` | cmd/moltnet/init_checkout.go:278-394 | the path never holds anything but one call's whole text or what was there before |
| `Publish.NeverReplaced` | cmd/moltnet/init_checkout.go:278-394 | while the power stays on, an entry once at the path is the same at every later point |
| `Publish.AtMostOneCreates` | cmd/moltnet/init_checkout.go:278-394 | while the power stays on, at most one call returns true, and the path holds its full contents |
| `Publish.AnswersAreTrue` | cmd/moltnet/init_checkout.go:278-394 | while the power stays on, every answer is true: an error if and only if one of the call's own steps failed, created if and only if the path holds its file with its whole text, exists only if the path is taken |
| `Publish.FailedIff` | cmd/moltnet/init_checkout.go:278-394 | over every run, power losses included, a call that returns reports an error if and only if a step of its own failed |
| `Publish.TakenStays` | cmd/moltnet/init_checkout.go:298-302 | on a path taken at first nothing is ever touched and no temp file made |
| `Publish.AllFindIt` | cmd/moltnet/init_checkout.go:298-302 | and undisturbed calls all answer that it exists |
| `Publish.NoTempIsLeft` | cmd/moltnet/init_checkout.go:325-331 | whatever fails, once all calls have returned the path is the only name, provided removals work |
| `Publish.ExactlyOneCreates` | cmd/moltnet/init_checkout.go:278-394 | undisturbed and with the path free, exactly one call creates, the rest find it there, no temp file is left |
| `Publish.OneCallCreates` | cmd/moltnet/init_checkout.go:278-394 | a call by itself on a free path creates the file with its text, by link or by rename, and leaves no other name; its entry outlives a power loss if and only if the directory was synced |
| `Publish.NeverStuck` | cmd/moltnet/init_checkout.go:278-394 | at every point of every run a call can go on by itself and is through after at most nine steps |
| `Publish.UnsyncedIsLost` | cmd/moltnet/init_checkout.go:338-341 | a power loss takes a temp file that was written and not synced |
| `Publish.DurableForever` | cmd/moltnet/init_checkout.go:278-394 | once a call's directory sync succeeded, every later state holds its whole text at the path, through any power loss |
| `Publish.PublishRefinesInstall` | cmd/moltnet/init_checkout_publish_darwin.go:27-45 | link and rename-without-replace are the same atomic install; every other step leaves the path as it was |
| `Pairing.StepKeepsInv` | cmd/moltnet/pair.go:94-158 | every file operation, restore, failure and crash keeps receipt and pairing in agreement |
| `Pairing.ShowPrintsCommittedCode` | cmd/moltnet/pair_invite.go:251-347 | at every point of every run `invite show` prints only the code of a pairing the config holds, and none that has expired |
| `Pairing.RollbackRestores` | cmd/moltnet/connect.go:140-156 | over every run, refused and forced invites of a paired id included, a command that reports a completed rollback left both files as it found them |
| `Pairing.PairedIsNotReplaced` | internal/app/config_writeback.go:161-180 | whatever fails or crashes, an invite without force leaves the config of a paired id alone and never says that it invited |
| `Pairing.InviteIsAllOrNothing` | cmd/moltnet/pair.go:94-158 | whichever writes and reloads fail, an invite whose restores are whole ends with the id paired in both files, or with both as they were |
| `Pairing.RevokeIsAllOrNothing` | cmd/moltnet/pair_revoke.go:87-130 | a revoke stands or falls with its reload: revoked and nothing else changed, or both files as they were |
| `Pairing.CommandEnds` | cmd/moltnet/pair.go:94-158 | from every point of a command at most five steps of its own end it |
| `Pairing.RevokeClearsOrphan` | cmd/moltnet/pair_revoke.go:87-130 | one more revoke clears any orphan receipt, so nothing is shown for it |
| `Pairing.InviteCommits` | cmd/moltnet/pair.go:94-158 | an undisturbed invite of an unpaired id, or a forced one, pairs exactly that id with that token; `invite show` then prints its code until it expires and refuses it afterwards |
| `Pairing.InviteIsRefused` | internal/app/config_writeback.go:161-180 | an undisturbed invite of a paired id without force is rolled back, and both files are as they were |
| `Pairing.RevokeCommits` | cmd/moltnet/pair_revoke.go:87-130 | an undisturbed revoke removes exactly that id's pairing and receipt |
| `Pairing.InviteSafeIffFitting` | cmd/moltnet/pair.go:94-158 | agreement survives an invite at every crash point if and only if the id was not paired with another token |
| `TurnBlock.AroundIsKept` | cmd/moltnet/skill_turn.go:228-248 | text before the first block is kept exactly, text after it but for one newline behind the end marker |
| `TurnBlock.AppendIsKept` | cmd/moltnet/skill_turn.go:228-248 | a file without a block is kept whole in front of it |
| `TurnBlock.GapEndsParagraph` | cmd/moltnet/skill_turn.go:228-248 | an appended block follows a blank line, and none is added where there is one |
| `TurnBlock.GapIsLeast` | cmd/moltnet/skill_turn.go:228-248 | and no shorter run of newlines does |
| `TurnBlock.RefusedIffOrphan` | cmd/moltnet/skill_turn.go:228-248 | an install is refused if and only if no end marker follows the first begin marker |
| `TurnBlock.LastWinsIff` | cmd/moltnet/skill_turn.go:228-248 | last wins if and only if the first rule holds no end marker, for any well-formed marker pair |
| `TurnBlock.InstallLastWinsIff` | cmd/moltnet/skill_turn.go:62-63 | the same for the markers the installer writes |
| `TurnBlock.InstallIdempotentIff` | cmd/moltnet/skill_turn.go:228-248 | installing twice changes nothing the second time if and only if the rule holds no end marker |
| `TurnBlock.InstalledText` | cmd/moltnet/skill_turn.go:228-248 | what an install into a file without a block writes, to the letter |
| `TurnBlock.NewFile` | cmd/moltnet/skill_turn.go:228-248 | a new file holds the block alone |
| `ShellQuote.RenderChildInvocation` | cmd/moltnet/setup_plan.go:106-118 | the loops build placeholder part, program and quoted arguments in order |
| `ShellQuote.PrintedWords` | cmd/moltnet/setup_plan.go:106-133 | the shell reads a printed command as program and arguments up to the first that reads as a comment |
| `ShellQuote.PrinterKnowsThem` | cmd/moltnet/setup_plan.go:125-133 | of the characters section 2.2 of the Shell Command Language names, the printer's list omits only #, = and % |
| `ShellQuote.ParsesBackIff` | cmd/moltnet/setup_plan.go:106-133 | tokenising and quote removal give the arguments back if and only if none reads as a comment |
| `ShellQuote.CommentIsDropped` | cmd/moltnet/setup_plan.go:125-133 | an unquoted argument that starts with # is dropped with everything behind it |
| `ShellQuote.ArgPartInjective` | cmd/moltnet/setup_plan.go:106-133 | any two argument lists that print the same are the same |
| `ShellQuote.ValuesAreHidden` | cmd/moltnet/setup_plan.go:106-118 | the printed text does not depend on any environment value |
| `ShellQuote.EntryIsShown` | cmd/moltnet/setup_plan.go:106-118 | every entry of the environment stands in the printed text behind those before it: its key and where the value comes from |
| `ShellQuote.ArgumentIsShown` | cmd/moltnet/setup_plan.go:106-133 | every argument without a quote stands behind one blank, as it is or in single quotes |
| `ShellQuote.BareIff` | cmd/moltnet/setup_plan.go:120-133 | an argument is left as it is if and only if it is not empty and has none of the listed characters |
| `TextSniff.TextSniffContents` | internal/app/config_sniff.go:45-71 | accepts if and only if the first 512 bytes hold no NUL and are valid after dropping at most three trailing bytes |
| `TextSniff.LooksLikeTextConfig` | internal/app/config_sniff.go:27-40 | reading only the prefix of a file gives the answer its whole contents would |
| `TextSniff.CutIsRepairable` | internal/app/config_sniff.go:57-71 | valid UTF-8 cut at any byte is valid again after dropping at most three more |
| `TextSniff.TextIsAccepted` | internal/app/config_sniff.go:27-71 | every NUL-free valid text of any length is accepted, wherever byte 512 cuts it |
| `TextSniff.AcceptedIffNearlyText` | internal/app/config_sniff.go:45-71 | what is accepted is exactly a valid NUL-free text and up to three more non-NUL bytes within the sample |
| `TextSniff.ShortJunkPasses` | internal/app/config_sniff.go:57-71 | invalid bytes behind a short text pass although nothing was cut |
| `TextSniff.FirstBytesDecide` | internal/app/config_sniff.go:57-71 | a NUL among the first 512 bytes decides, and nothing behind them does |
| `BannerFrames.FileRoundTrip` | cmd/moltnet/banner_frames.go:90-112 | a file written from frames is split into those frames |
| `BannerFrames.FileAtWork` | cmd/moltnet/banner_frames.go:90-112 | two frames as they stand in a file |
| `BannerFrames.JoinedGroups` | cmd/moltnet/banner_frames.go:90-112 | the frames split from a file, written one behind the other, are its lines, and no row is a separator |
| `BannerFrames.CheckSizes` | cmd/moltnet/banner_frames.go:113-131 | accepts if and only if all frames have one height and all rows one width |
| `BannerFrames.OneSizeIffUniform` | cmd/moltnet/banner_frames.go:113-131 | comparing with the first frame is having one size at all |
| `BannerFrames.SplitAndValidate` | cmd/moltnet/banner_frames.go:90-134 | returns the file's frames if and only if there are two or more of one size |
| `BannerFrames.ContentWindow` | cmd/moltnet/banner_frames.go:158-198 | the scanned window encloses all ink of all frames and touches it on every side; without ink it is unset |
| `BannerCrop.CropToSharedContent` | cmd/moltnet/banner_frames.go:158-218 | every frame is cropped to the one window their ink needs; frames without ink are returned as they are |
| `BannerCrop.EmbedRestoresIff` | cmd/moltnet/banner_frames.go:200-218 | re-embedding a cropped, trimmed frame gives the original if and only if the window holds all its ink |
| `BannerCrop.SmallestWindow` | cmd/moltnet/banner_frames.go:158-218 | cropping loses nothing, and the window lies within every window that loses nothing |
| `BannerCrop.CropIsDetermined` | cmd/moltnet/banner_frames.go:158-218 | the window is unique, so the crop is settled by the frames |
| `BannerCrop.SameCropIff` | cmd/moltnet/banner_frames.go:158-218 | two frames are equal after the crop if and only if they were before |
| `BannerCrop.DedupeConsecutive` | cmd/moltnet/banner_frames.go:230-243 | keeps exactly the frames that differ from the one immediately before them |
| `BannerCrop.CropDedupeCommute` | cmd/moltnet/banner_frames.go:158-243 | crop and dedupe commute, and deduping leaves the window as it is |
| `BannerCrop.ParseBannerFrames` | cmd/moltnet/banner_frames.go:69-82 | takes a file if and only if its frames have one size and are not all the same; plays its frames without repeats, cropped to the window these need, no two in a row equal; no row ends in a blank |
| `BannerCrop.MaxFrameRowWidth` | cmd/moltnet/banner_frames.go:249-259 | the width is that of a widest row |
| `BannerCrop.WidestIsWindow` | cmd/moltnet/banner_frames.go:158-259 | after the crop the widest row is exactly as wide as the window |
| `ApplyAgents.AgentList.Append` | internal/app/apply_config.go:150-173 | refused if and only if the id was declared under another key; list and side map stay in agreement |
| `ApplyAgents.MergeIsExact` | internal/app/apply_config.go:32-54 | an accepted merge lists every declaration, each id once, in the order of first declarations |
| `ApplyAgents.MapAgreesWithList` | internal/app/apply_config.go:150-173 | the side map and the list hold the same pairs, and exclude a conflict |
| `ApplyAgents.AgentsFromConfig` | internal/app/apply_config.go:32-41 | fails if and only if some agent is declared under two keys, else returns the merge |
| `ApplyAgents.AgentsFromRawConfig` | internal/app/apply_config.go:122-148 | gives the list, and the refusals, of the loaded config |
| `ApplyAgents.OneTokenDeclares` | internal/app/apply_config.go:122-148 | a token declares exactly its agents, blank ids aside, under "token:" and its own id, all trimmed |
| `ApplyAgents.TrimIsExact` | internal/app/apply_config.go:122-148 | trimming takes the space at both ends and nothing else |
| `LeastPrivilege.SelectLeastPrivilegedToken` | cmd/moltnet/client_operator_fallback.go:238-307 | finds a token if and only if an eligible one exists; it carries admin only if every eligible one does, has the fewest scopes of its kind, and is the first such; it is bound to no agent and carries the scope, or admin for observe |
| `ConsoleId.CandidatesTakeRoom` | cmd/moltnet/auth_token_writeback.go:146-160 | n candidates all in use are n different ids |
| `ConsoleId.NextConsoleTokenID` | cmd/moltnet/auth_token_writeback.go:146-160 | the unbounded search ends within one more candidate than there are tokens, at the first id none of them uses |
| `ConsoleId.CandidateNames` | cmd/moltnet/auth_token_writeback.go:146-160 | the ids tried are console, console-2, console-3 and so on, the suffix reading back to its number |

## Left out

- Two-cell runes, carriage return and tab, which the row counter does not claim to handle.
- Writes cut inside a token under a live header: `SplitWrites` says what they cost the row counter; the header's runs print complete tokens.
- A terminal of unknown or zero width under a live header; the row counter and the select measurements are proved for it.
- Output that is not a terminal under a live header, which needs one: a redraw without a climb is modelled only as far as what it prints.
- How a line typed at the numbered select prompt is parsed (`Wizard.SetupPromptSelect` takes its result), and what an option block as tall as the viewport leaves on the screen, beyond that no readable repaint follows.
- A reflow of the terminal in the middle of a select prompt's output: a prompt's output happens as a whole.
- The reads of the terminal's size are answered per event, not by system calls that could disagree within one.
- The wording of prompts, hints, styling, spinner, step labels and summaries.
- First use of a cursor, and a cursor the server no longer retains: both show only the newest page by design, so the no-skip promise starts from a retained cursor.
- Several processes writing the cursor file at once; its read-modify-write is sequential by design.
- How an unread block is worded; what it shows and leaves out is modelled.
- Server-side paging, access policy, relay and store: only the paging contract is used.
- Publish and Pairing work on values, one step per system call, because their promises are about crashes and interleavings between the calls.
- Concurrent pairing commands on one config, the joining side, key pins and hub grants.
- YAML and JSON encoding: writing or revoking a pairing is one atomic file write that applies or changes nothing.
- The expiry clock of an invite is a flag.
- `writeConfigWithRollback`, which restores one file the way `Pairing` restores two.
- Rune decoding of banner rows: a row is a sequence of runes.
- The shell's operators, expansions and double quotes: the lexer answers that a text using them is not a list of literal words.
- The truncated hash that names a token without an id is a parameter.
- HTTP, DNS, service managers, browser opening, templates and single-branch flag validators.
