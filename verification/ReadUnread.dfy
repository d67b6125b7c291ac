/**
 The untargeted `read --since-last`, step by step over the cursor file and a server that other
 participants keep posting to.
 */
module ReadUnread {
  import opened Utf8
  import opened Arithmetic
  import opened CursorKeys
  import opened UnreadSpec
  import opened Unread

  datatype After = FromStart | AfterMessage(id: nat)

  datatype Reply = Served(page: Page) | InvalidCursor | Unreachable

  datatype Status = Done | StoppedEarly | PrintFailed | AdvanceFailed

  /** Whether any of the chances from `was` to `now` was a mishap. */
  predicate Spent(chance: nat -> bool, was: nat, now: nat, bad: bool) {
    was <= now && (bad <==> exists i: nat :: was <= i < now && chance(i))
  }

  lemma SpentOn(chance: nat -> bool, a: nat, b: nat, c: nat, x: bool, y: bool)
    requires Spent(chance, a, b, x) && Spent(chance, b, c, y)
    ensures Spent(chance, a, c, x || y)
  {
  }

  /** Since `was`, only `t` was asked for. */
  predicate AskedOnly(was: seq<Target>, now: seq<Target>, t: Target) {
    was <= now && forall i | |was| <= i < |now| :: now[i] == t
  }

  class Inbox {
    const who: Identity
    const self: seq<byte>
    var logs: map<Target, Log>
    var entries: map<seq<byte>, nat>
    ghost var printed: map<Target, seq<Message>>
    ghost var start: map<Target, int>
    ghost var pos: map<Target, nat>
    const chance: nat -> bool
    var turn: nat
    ghost var asked: seq<Target>

    constructor (who: Identity, self: seq<byte>, logs: map<Target, Log>, entries: map<seq<byte>, nat>,
                 chance: nat -> bool, ghost watched: set<Target>, ghost at: map<Target, nat>)
      requires watched <= at.Keys && watched <= logs.Keys
      requires forall t | t in watched ::
                 && DistinctIds(logs[t]) && at[t] < |logs[t]|
                 && ReadCursorKey(who, t) in entries && entries[ReadCursorKey(who, t)] == logs[t][at[t]].id
      ensures this.who == who && this.self == self && this.logs == logs && this.entries == entries
      ensures this.chance == chance && turn == 0 && asked == []
      ensures start.Keys == watched && forall t | t in watched :: start[t] == at[t]
      ensures Inv(Now()) && ExactAll(Now())
    {
      this.who, this.self, this.logs, this.entries := who, self, logs, entries;
      this.chance, this.turn, this.asked := chance, 0, [];
      this.printed := map t | t in watched :: [];
      this.start := map t | t in watched :: at[t];
      this.pos := map t | t in watched :: at[t];
      new;
      BeginningIsExact(Now());
    }

    ghost function Now(): (w: World)
      reads this
    {
      World(who, self, logs, entries, printed, start, pos)
    }

    function LogOf(t: Target): (l: Log)
      reads this
    {
      if t in logs then logs[t] else []
    }

    /** Whether the next thing that can go wrong does. `chance` settles it beforehand, so that what follows
        holds of every course of events. */
    method Mishap() returns (bad: bool)
      modifies this`turn
      ensures Spent(chance, old(turn), turn, bad)
    {
      bad := chance(turn);
      turn := turn + 1;
    }

    // -------------------------------------------------------------------------------------
    // The server
    // -------------------------------------------------------------------------------------

    /** Other participants post. */
    method Arrive()
      requires Inv(Now())
      modifies this`logs
      ensures Inv(Now()) && Extends(old(Now()), Now()) && (old(ExactAll(Now())) ==> ExactAll(Now()))
    {
      var more: map<Target, Log> := *;
      assert forall t: Target :: TargetOk(Now(), t) ==> ExtendsAt(Now(), Now(), t);
      if Grows(logs, more) {
        GrowKeeps(Now(), more);
        logs := more;
      }
    }

    /** One page request; anything may have been posted before it is served. */
    method FetchTarget(t: Target, after: After, n: nat) returns (r: Reply)
      requires Inv(Now()) && n >= 1
      modifies this`logs, this`turn, this`asked
      ensures Inv(Now()) && Extends(old(Now()), Now()) && (old(ExactAll(Now())) ==> ExactAll(Now()))
      ensures Spent(chance, old(turn), turn, r.Unreachable?) && asked == old(asked) + [t]
      ensures r.Served? && after.AfterMessage? ==>
                var i := Position(LogOf(t), after.id);
                i >= 0 && r.page == PageAfter(LogOf(t), i, n)
      ensures r.Served? && after.FromStart? ==> r.page == NewestPage(LogOf(t), n)
      ensures r.InvalidCursor? ==> after.AfterMessage? && Position(LogOf(t), after.id) == -1
    {
      asked := asked + [t];
      Arrive();
      var down := Mishap();
      if down {
        return Unreachable;
      }
      match after
      case FromStart => return Served(NewestPage(LogOf(t), n));
      case AfterMessage(id) =>
        var i := Position(LogOf(t), id);
        if i < 0 {
          return InvalidCursor;
        }
        return Served(PageAfter(LogOf(t), i, n));
    }

    // -------------------------------------------------------------------------------------
    // One target
    // -------------------------------------------------------------------------------------

    /** Fetches what follows the stored cursor without advancing it; a cursor the server no longer
        knows, or none, falls back to the newest page. It fails if and only if the cursor file cannot be read
        or the server cannot be reached. */
    method FetchSinceLast(t: Target, limit: int) returns (ok: bool, page: Page, reset: bool, ghost place: Place)
      requires Inv(Now())
      modifies this`logs, this`turn, this`asked
      ensures Inv(Now()) && Extends(old(Now()), Now()) && (old(ExactAll(Now())) ==> ExactAll(Now()))
      ensures Spent(chance, old(turn), turn, !ok) && AskedOnly(old(asked), asked, t)
      ensures ok ==> Pending(Now(), t, page, place.from, place.end)
      ensures ok && t in start ==> t in pos && place.from == pos[t] && !reset
      ensures ok && t in start ==> t in logs && place.end == Min(pos[t] + PageLimit(limit), |logs[t]| - 1)
    {
      ghost var f := turn;
      var unreadable := Mishap();
      if unreadable {
        assert forall u: Target :: TargetOk(Now(), u) ==> ExtendsAt(Now(), Now(), u);
        return false, Page([], false), false, Place(0, 0);
      }
      ghost var f1 := turn;
      ok, page, reset, place := FetchStored(t, PageLimit(limit));
      SpentOn(chance, f, f1, turn, false, !ok);
    }

    method FetchStored(t: Target, n: nat) returns (ok: bool, page: Page, reset: bool, ghost place: Place)
      requires Inv(Now()) && n >= 1
      modifies this`logs, this`turn, this`asked
      ensures Inv(Now()) && Extends(old(Now()), Now()) && (old(ExactAll(Now())) ==> ExactAll(Now()))
      ensures Spent(chance, old(turn), turn, !ok) && AskedOnly(old(asked), asked, t)
      ensures ok ==> Pending(Now(), t, page, place.from, place.end)
      ensures ok && t in start ==> t in pos && place.from == pos[t] && !reset
      ensures ok && t in start ==> t in logs && place.end == Min(pos[t] + n, |logs[t]| - 1)
    {
      ghost var w, f := Now(), turn;
      if ReadCursorKey(who, t) !in entries {
        assert t !in start by { assert TargetOk(w, t); }
        ok, page := FetchNewest(t, n);
        return ok, page, false, Place(0, 0);
      }
      var r := FetchTarget(t, AfterMessage(entries[ReadCursorKey(who, t)]), n);
      if t in start {
        PageIsPending(Now(), t, n);
      }
      match r
      case InvalidCursor =>
        ghost var w1, f1 := Now(), turn;
        ok, page := FetchNewest(t, n);
        SpentOn(chance, f, f1, turn, false, !ok);
        ExtendsTrans(w, w1, Now());
        return ok, page, true, Place(0, 0);
      case Unreachable => return false, Page([], false), false, Place(0, 0);
      case Served(p) =>
        return true, p, false, if t in start then Place(pos[t], pos[t] + |p.messages|) else Place(0, 0);
    }

    /** The newest page, cursor or not. */
    method FetchNewest(t: Target, n: nat) returns (ok: bool, page: Page)
      requires Inv(Now()) && n >= 1
      modifies this`logs, this`turn, this`asked
      ensures Inv(Now()) && Extends(old(Now()), Now()) && (old(ExactAll(Now())) ==> ExactAll(Now()))
      ensures Spent(chance, old(turn), turn, !ok) && AskedOnly(old(asked), asked, t)
      ensures ok ==> page == NewestPage(LogOf(t), n)
    {
      var r := FetchTarget(t, FromStart, n);
      return r.Served?, if r.Served? then r.page else Page([], false);
    }

    /** Moves the cursor to the newest fetched message. The file write may fail, before the new file has
        replaced the old one or, in the last `chmod`, after it. */
    method AdvanceSinceLast(t: Target, page: Page, ghost end: int) returns (ok: bool, ghost moved: bool)
      requires Inv(Now()) && (page.messages != [] ==> Ready(Now(), t, page, end))
      modifies this`entries, this`pos, this`turn
      ensures Inv(Now()) && Extends(old(Now()), Now())
      ensures Spent(chance, old(turn), turn, !ok)
      ensures moved ==> page.messages != [] && Now() == Advanced(old(Now()), t, page, end)
      ensures !moved ==> Now() == old(Now())
      ensures ok ==> moved == (page.messages != [])
    {
      assert Extends(Now(), Now()) by {
        assert forall u: Target :: TargetOk(Now(), u) ==> ExtendsAt(Now(), Now(), u);
      }
      if page.messages == [] {
        return true, false;
      }
      ghost var f := turn;
      var full := Mishap();
      if full {
        return false, false;
      }
      ghost var f1 := turn;
      AdvanceKeeps(Now(), t, page, end);
      ghost var w := Now();
      entries := entries[ReadCursorKey(who, t) := page.messages[|page.messages| - 1].id];
      pos := Advanced(w, t, page, end).pos;
      var unfinished := Mishap();
      SpentOn(chance, f, f1, turn, false, unfinished);
      ok, moved := !unfinished, true;
    }

    /** Fetches one target's page, consuming full pages of the reader's own messages on the way,
        at most `MAX_OWN_PAGES` of them. */
    method FetchSkippingOwnPages(t: Target, limit: int)
      returns (ok: bool, page: Page, reset: bool, fetches: nat, ghost place: Place)
      requires Inv(Now())
      modifies this`logs, this`entries, this`pos, this`turn, this`asked
      ensures Inv(Now()) && Extends(old(Now()), Now()) && (old(ExactAll(Now())) ==> ExactAll(Now()))
      ensures Spent(chance, old(turn), turn, !ok) && AskedOnly(old(asked), asked, t)
      ensures ok ==> Pending(Now(), t, page, place.from, place.end)
      ensures ok && t in start ==> t in pos && place.from == pos[t]
      ensures forall u | u in old(pos) && u != t :: u in pos && pos[u] == old(pos)[u]
      ensures ok && t in start ==>
                (page.messages == [] ==> pos[t] == place.end) && Due(old(Now()), t, limit) <= place.end
      ensures OnwardOf(old(Now()), Now())
      ensures fetches <= 11 && (ok ==> !page.hasMore || !OnlyFrom(page.messages, self) || fetches == 11)
    {
      reset, fetches := false, 0;
      ghost var w0, f0 := Now(), turn;
      OnwardAtFirst(w0);
      assert Extends(w0, w0) by {
        assert forall u: Target :: TargetOk(w0, u) ==> ExtendsAt(w0, w0, u);
      }
      while true
        invariant Inv(Now()) && Extends(w0, Now()) && (ExactAll(w0) ==> ExactAll(Now()))
        invariant forall u | u in w0.pos && u != t :: u in pos && pos[u] == w0.pos[u]
        invariant OnwardOf(w0, Now())
        invariant Spent(chance, f0, turn, false) && AskedOnly(old(asked), asked, t)
        invariant fetches <= MAX_OWN_PAGES
        decreases MAX_OWN_PAGES - fetches
      {
        ghost var w1, f1 := Now(), turn;
        var pageReset;
        ok, page, pageReset, place := FetchSinceLast(t, limit);
        SpentOn(chance, f0, f1, turn, false, !ok);
        ExtendsTrans(w0, w1, Now());
        OnwardStays(w0, w1, Now());
        fetches := fetches + 1;
        if !ok {
          return false, Page([], false), false, fetches, place;
        }
        reset := reset || pageReset;
        DueIsCovered(w0, Now(), t, limit);
        if !page.hasMore || !OnlyFrom(page.messages, self) || fetches > MAX_OWN_PAGES {
          return;
        }
        ghost var w2, f2 := Now(), turn;
        OwnPageIsReady(w2, t, page, place.from, place.end);
        var saved;
        ghost var moved;
        saved, moved := AdvanceSinceLast(t, page, place.end);
        SpentOn(chance, f0, f2, turn, false, !saved);
        ExtendsTrans(w0, w2, Now());
        if moved {
          SkipKeepsExact(w2, Now(), t, page, place);
          SkipGoesOn(w0, w2, Now(), t, page, place);
        }
        if !saved {
          return false, Page([], false), false, fetches, place;
        }
      }
    }

    // -------------------------------------------------------------------------------------
    // The check
    // -------------------------------------------------------------------------------------

    /** Fetches every target in turn, stopping early at the first failure. */
    method FetchAll(targets: seq<Target>, limit: int) returns (items: seq<Item>, stopped: bool,
                                                               ghost places: seq<Place>)
      requires Inv(Now())
      modifies this`logs, this`entries, this`pos, this`turn, this`asked
      ensures Inv(Now()) && Extends(old(Now()), Now()) && (old(ExactAll(Now())) ==> ExactAll(Now()))
      ensures Spent(chance, old(turn), turn, stopped) && old(asked) <= asked
      ensures AllPending(Now(), items, places)
      ensures Unrepeated(targets) ==> DistinctTargets(items) && AllAtCursor(Now(), items, places)
      ensures forall k | 0 <= k < |targets|
                         && (!stopped || (Unrepeated(targets) && Passed(targets, k, asked[|old(asked)|..]))) ::
                Reaches(old(Now()), Now(), items, places, targets[k], limit)
    {
      items, stopped, places := [], false, [];
      ghost var w0, f0, asked0 := Now(), turn, asked;
      assert Extends(w0, w0) by {
        assert forall u: Target :: TargetOk(w0, u) ==> ExtendsAt(w0, w0, u);
      }
      OnwardAtFirst(w0);
      var i := 0;
      while i < |targets| && !stopped
        invariant 0 <= i <= |targets|
        decreases |targets| - i, if stopped then 0 else 1
        invariant Inv(Now()) && Extends(w0, Now()) && (ExactAll(w0) ==> ExactAll(Now()))
        invariant AllPending(Now(), items, places)
        invariant forall k | 0 <= k < |items| :: items[k].target in targets[..i]
        invariant Unrepeated(targets) ==> DistinctTargets(items) && AllAtCursor(Now(), items, places)
        invariant forall k | 0 <= k < i :: Reaches(w0, Now(), items, places, targets[k], limit)
        invariant OnwardOf(w0, Now())
        invariant Spent(chance, f0, turn, stopped)
        invariant AskedAmong(targets, i, stopped, asked0, asked)
      {
        ghost var w1, f1, asked1 := Now(), turn, asked;
        ghost var items1, places1 := items, places;
        var ok, page, reset, fetches;
        ghost var place;
        ok, page, reset, fetches, place := FetchSkippingOwnPages(targets[i], limit);
        SpentOn(chance, f0, f1, turn, false, !ok);
        AskedNext(targets, i, asked0, asked1, asked);
        ExtendsTrans(w0, w1, Now());
        AllPendingKept(w1, Now(), items, places);
        OnwardTrans(w0, w1, Now());
        if Unrepeated(targets) {
          StillAtCursor(w1, Now(), items, places, targets, i);
        }
        if !ok {
          ReachesAllKept(w0, w1, Now(), items, places, items, places, targets, i, limit);
          stopped := true;
        } else {
          if page.messages != [] {
            items := items + [Item(targets[i], page)];
            places := places + [place];
          }
          ReachesNext(w0, w1, Now(), items1, places1, items, places, targets, i, page, place, limit);
          i := i + 1;
        }
      }
      PassedIsDone(targets, i, stopped, asked0, asked);
    }

    /** Advances every shown target; the first failing write ends the check. */
    method AdvanceAll(items: seq<Item>, ghost places: seq<Place>) returns (ok: bool)
      requires Inv(Now()) && AllReady(Now(), items, places)
      modifies this`entries, this`pos, this`turn
      ensures Inv(Now()) && Extends(old(Now()), Now())
      ensures Spent(chance, old(turn), turn, !ok) && logs == old(logs)
      ensures ok && DistinctTargets(items) ==>
                forall t: Target :: Landed(old(Now()), Now(), items, places, |items|, t)
    {
      ghost var w0, f0 := Now(), turn;
      assert Extends(w0, w0) by {
        assert forall u: Target :: TargetOk(w0, u) ==> ExtendsAt(w0, w0, u);
      }
      for i := 0 to |items|
        invariant Spent(chance, f0, turn, false)
        invariant Inv(Now()) && Extends(w0, Now()) && AllReady(Now(), items, places)
        invariant DistinctTargets(items) ==> forall t: Target :: Landed(w0, Now(), items, places, i, t)
      {
        ghost var w1, f1 := Now(), turn;
        var saved;
        ghost var moved;
        saved, moved := AdvanceSinceLast(items[i].target, items[i].page, places[i].end);
        SpentOn(chance, f0, f1, turn, false, !saved);
        ExtendsTrans(w0, w1, Now());
        AllReadyKept(w1, Now(), items, places);
        if !saved {
          return false;
        }
        if DistinctTargets(items) {
          ghost var n := i + 1;
          forall t: Target ensures Landed(w0, Now(), items, places, n, t) {
            LandedStep(w0, w1, items, places, i, t);
          }
        }
      }
      return true;
    }

    /** The operator sees the news of every fetched page. */
    method PrintBlocks(items: seq<Item>)
      modifies this`printed
      ensures Now() == AllShown(old(Now()), items)
    {
      printed := AllShown(Now(), items).printed;
      ShownOnlyPrints(old(Now()), items);
    }

    /** The write breaks off somewhere. */
    method PrintBreaksOff(items: seq<Item>)
      requires Inv(Now())
      modifies this`printed
      ensures Inv(Now()) && Extends(old(Now()), Now())
      ensures exists k: nat, n: nat :: Now() == AllShown(old(Now()), CutShort(items, k, n))
    {
      var k: nat, n: nat := *, *;
      AllShownKeeps(Now(), CutShort(items, k, n));
      PrintBlocks(CutShort(items, k, n));
    }

    /** The end-of-turn check. Whatever fails, nothing is lost; a print that broke off or a cursor write
        that failed may show messages again. It ends normally if and only if nothing went wrong, and a fetch
        that failed holds up only its own target and those behind it. */
    method RunReadUnread(targets: seq<Target>, limit: int) returns (status: Status)
      requires Inv(Now())
      modifies this`logs, this`entries, this`pos, this`printed, this`turn, this`asked
      ensures Inv(Now()) && Extends(old(Now()), Now())
      ensures Spent(chance, old(turn), turn, !status.Done?) && old(asked) <= asked
      ensures Unrepeated(targets) && !status.AdvanceFailed? && !status.PrintFailed? && old(ExactAll(Now())) ==>
                ExactAll(Now())
      ensures Unrepeated(targets) ==>
                forall k | 0 <= k < |targets|
                           && (status.Done? || (status.StoppedEarly? && Passed(targets, k, asked[|old(asked)|..]))) ::
                  CaughtAt(old(Now()), Now(), targets[k], limit)
    {
      var items, stopped;
      ghost var places;
      ghost var f0 := turn;
      items, stopped, places := FetchAll(targets, limit);
      ghost var w0, w1, f1 := old(Now()), Now(), turn;
      AllShownIsReady(w1, items, places);
      if exists k | 0 <= k < |items| :: Fresh(self, items[k].page.messages) != [] {
        var closed := Mishap();
        SpentOn(chance, f0, f1, turn, stopped, closed);
        if closed {
          PrintBreaksOff(items);
          ExtendsTrans(w0, w1, Now());
          return PrintFailed;
        }
        PrintBlocks(items);
      } else {
        NothingToShow(w1, items);
      }
      ghost var w2, f2 := Now(), turn;
      ExtendsTrans(w0, w1, w2);
      var saved := AdvanceAll(items, places);
      ExtendsTrans(w0, w2, Now());
      SpentOn(chance, f0, f2, turn, stopped, !saved);
      if !saved {
        return AdvanceFailed;
      }
      if Unrepeated(targets) {
        if ExactAll(w0) {
          CheckIsExact(w1, Now(), items, places);
        }
        forall k | 0 <= k < |targets| && (!stopped || Passed(targets, k, asked[|old(asked)|..]))
          ensures CaughtAt(w0, Now(), targets[k], limit)
        {
          CheckCatchesUp(w0, w1, Now(), items, places, targets[k], limit);
        }
      }
      return if stopped then StoppedEarly else Done;
    }

    /** Any number of checks, with anything posted in between. `clean` reports that nothing went wrong. */
    method RunChecks(rounds: seq<seq<Target>>, limit: int) returns (clean: bool)
      requires Inv(Now()) && ExactAll(Now())
      modifies this`logs, this`entries, this`pos, this`printed, this`turn, this`asked
      ensures Inv(Now()) && Extends(old(Now()), Now())
      ensures Spent(chance, old(turn), turn, !clean)
      ensures clean && (forall i | 0 <= i < |rounds| :: Unrepeated(rounds[i])) ==> ExactAll(Now())
    {
      clean := true;
      ghost var w0, f0 := Now(), turn;
      assert Extends(w0, w0) by {
        assert forall u: Target :: TargetOk(w0, u) ==> ExtendsAt(w0, w0, u);
      }
      for i := 0 to |rounds|
        invariant Inv(Now()) && Extends(w0, Now())
        invariant Spent(chance, f0, turn, !clean)
        invariant clean && (forall k | 0 <= k < |rounds| :: Unrepeated(rounds[k])) ==> ExactAll(Now())
      {
        ghost var w1, f1 := Now(), turn;
        var status := RunReadUnread(rounds[i], limit);
        ExtendsTrans(w0, w1, Now());
        SpentOn(chance, f0, f1, turn, !clean, !status.Done?);
        if !status.Done? {
          clean := false;
        }
      }
    }
  }

  // ---------------------------------------------------------------------------------------
  // Progress
  // ---------------------------------------------------------------------------------------

  /** How far a check has to bring a watched cursor: one page on, or to the end of the log. */
  function Due(w: World, t: Target, limit: int): (i: int) {
    if t in w.pos && t in w.logs then Min(w.pos[t] + PageLimit(limit), |w.logs[t]| - 1) else 0
  }

  /** Cursors have not moved back. */
  ghost predicate OnwardAt(w: World, v: World, t: Target) {
    t in w.start ==> t in w.pos && t in v.pos && w.pos[t] <= v.pos[t]
  }

  ghost predicate OnwardOf(w: World, v: World) {
    forall t: Target :: OnwardAt(w, v, t)
  }

  lemma OnwardAtFirst(w: World)
    requires Inv(w)
    ensures OnwardOf(w, w)
  {
    forall t: Target ensures OnwardAt(w, w, t) {
      assert TargetOk(w, t);
    }
  }

  lemma OnwardTrans(w: World, v: World, u: World)
    requires v.start == w.start && OnwardOf(w, v) && OnwardOf(v, u)
    ensures OnwardOf(w, u)
  {
    forall t: Target ensures OnwardAt(w, u, t) {
      assert OnwardAt(w, v, t) && OnwardAt(v, u, t);
    }
  }

  lemma OnwardStays(w: World, v: World, u: World)
    requires OnwardOf(w, v) && u.pos == v.pos
    ensures OnwardOf(w, u)
  {
    forall t: Target ensures OnwardAt(w, u, t) {
      assert OnwardAt(w, v, t);
    }
  }

  lemma SkipGoesOn(w0: World, w: World, v: World, t: Target, p: Page, place: Place)
    requires OnwardOf(w0, w) && Pending(w, t, p, place.from, place.end) && w.start == w0.start && p.messages != []
    requires t in w.start ==> t in w.pos && place.from == w.pos[t]
    requires v == Advanced(w, t, p, place.end)
    ensures OnwardOf(w0, v)
  {
    forall u: Target ensures OnwardAt(w0, v, u) {
      assert OnwardAt(w0, w, u);
    }
  }

  /** The cursor of `t`, or a page fetched for it, is as far as it has to come. */
  ghost predicate Reaches(w0: World, w: World, items: seq<Item>, places: seq<Place>, t: Target, limit: int)
    requires |items| == |places|
  {
    t in w0.start ==>
      || (t in w.pos && Due(w0, t, limit) <= w.pos[t])
      || exists k :: 0 <= k < |items| && items[k].target == t && Due(w0, t, limit) <= places[k].end
  }

  /** What was due then is no further than what one more page reaches now. */
  lemma DueIsCovered(w0: World, w: World, t: Target, limit: int)
    requires Inv(w0) && Inv(w) && Extends(w0, w) && OnwardOf(w0, w)
    ensures t in w0.start ==> Due(w0, t, limit) <= Due(w, t, limit)
  {
    assert TargetOk(w0, t) && TargetOk(w, t) && ExtendsAt(w0, w, t) && OnwardAt(w0, w, t);
  }

  lemma ReachesKept(w0: World, w1: World, w2: World, items1: seq<Item>, places1: seq<Place>, items2: seq<Item>,
                    places2: seq<Place>, t: Target, limit: int)
    requires |items1| == |places1| && |items2| == |places2| && items1 <= items2 && places1 <= places2
    requires w1.start == w0.start && Reaches(w0, w1, items1, places1, t, limit) && OnwardAt(w1, w2, t)
    ensures Reaches(w0, w2, items2, places2, t, limit)
  {
    if k :| 0 <= k < |items1| && items1[k].target == t && Due(w0, t, limit) <= places1[k].end {
      assert items2[k] == items1[k] && places2[k] == places1[k];
    }
  }

  /** The target just fetched is as far as it was due when the check began. */
  lemma ReachesNow(w0: World, w1: World, w2: World, items1: seq<Item>, places1: seq<Place>, items2: seq<Item>,
                   places2: seq<Place>, t: Target, page: Page, place: Place, limit: int)
    requires Inv(w0) && Inv(w1) && Extends(w0, w1) && OnwardOf(w0, w1)
    requires |items1| == |places1| && |items2| == |places2|
    requires page.messages != [] ==> items2 == items1 + [Item(t, page)] && places2 == places1 + [place]
    requires t in w0.start ==> Due(w1, t, limit) <= place.end && t in w2.pos
    requires t in w0.start && page.messages == [] ==> w2.pos[t] == place.end
    ensures Reaches(w0, w2, items2, places2, t, limit)
  {
    DueIsCovered(w0, w1, t, limit);
    if t in w0.start && page.messages != [] {
      var k := |items1|;
      assert items2[k].target == t && places2[k] == place;
    }
  }

  lemma ReachesNext(w0: World, w1: World, w2: World, items1: seq<Item>, places1: seq<Place>, items2: seq<Item>,
                    places2: seq<Place>, targets: seq<Target>, i: nat, page: Page, place: Place, limit: int)
    requires i < |targets| && Inv(w0) && Inv(w1) && Extends(w0, w1) && OnwardOf(w0, w1) && OnwardOf(w1, w2)
    requires |items1| == |places1| && |items2| == |places2|
    requires if page.messages != [] then items2 == items1 + [Item(targets[i], page)] && places2 == places1 + [place]
             else items2 == items1 && places2 == places1
    requires targets[i] in w0.start ==>
               && targets[i] in w2.pos && Due(w1, targets[i], limit) <= place.end
               && (page.messages == [] ==> w2.pos[targets[i]] == place.end)
    requires forall k | 0 <= k < i :: Reaches(w0, w1, items1, places1, targets[k], limit)
    ensures forall k | 0 <= k <= i :: Reaches(w0, w2, items2, places2, targets[k], limit)
  {
    ReachesNow(w0, w1, w2, items1, places1, items2, places2, targets[i], page, place, limit);
    ReachesAllKept(w0, w1, w2, items1, places1, items2, places2, targets, i, limit);
  }

  lemma ReachesAllKept(w0: World, w1: World, w2: World, items1: seq<Item>, places1: seq<Place>, items2: seq<Item>,
                       places2: seq<Place>, targets: seq<Target>, i: nat, limit: int)
    requires i <= |targets| && |items1| == |places1| && |items2| == |places2| && items1 <= items2 && places1 <= places2
    requires w1.start == w0.start && OnwardOf(w1, w2)
    requires forall k | 0 <= k < i :: Reaches(w0, w1, items1, places1, targets[k], limit)
    ensures forall k | 0 <= k < i :: Reaches(w0, w2, items2, places2, targets[k], limit)
  {
    forall k | 0 <= k < i ensures Reaches(w0, w2, items2, places2, targets[k], limit) {
      assert OnwardAt(w1, w2, targets[k]);
      ReachesKept(w0, w1, w2, items1, places1, items2, places2, targets[k], limit);
    }
  }

  /** The cursor has come at least one page on, or to the end of its log as it was when the check
      began. */
  ghost predicate CaughtAt(w0: World, w: World, t: Target, limit: int) {
    t in w0.start ==> t in w.pos && Due(w0, t, limit) <= w.pos[t]
  }

  lemma CheckCatchesUp(w0: World, w: World, v: World, items: seq<Item>, places: seq<Place>, t: Target, limit: int)
    requires Inv(w) && w.start == w0.start
    requires AllPending(w, items, places) && DistinctTargets(items) && AllAtCursor(w, items, places)
    requires forall u: Target :: Landed(AllShown(w, items), v, items, places, |items|, u)
    requires Reaches(w0, w, items, places, t, limit)
    ensures CaughtAt(w0, v, t, limit)
  {
    AllShownIsReady(w, items, places);
    ShownOnlyPrints(w, items);
    assert Landed(AllShown(w, items), v, items, places, |items|, t) && TargetOk(w, t);
    if i :| 0 <= i < |items| && items[i].target == t {
      assert Pending(w, items[i].target, items[i].page, places[i].from, places[i].end);
    }
  }

  /** Some target behind the `k`th was asked for. */
  predicate Passed(targets: seq<Target>, k: nat, asked: seq<Target>) {
    exists j :: k < j < |targets| && targets[j] in asked
  }

  /** Only the first `i` targets were asked for, and the next if the loop stopped there. */
  predicate AskedAmong(targets: seq<Target>, i: nat, stopped: bool, was: seq<Target>, now: seq<Target>) {
    && was <= now && i <= |targets| && (stopped ==> i < |targets|)
    && forall m | |was| <= m < |now| :: now[m] in targets[..if stopped then i + 1 else i]
  }

  lemma AskedNext(targets: seq<Target>, i: nat, was: seq<Target>, mid: seq<Target>, now: seq<Target>)
    requires i < |targets| && AskedAmong(targets, i, false, was, mid) && AskedOnly(mid, now, targets[i])
    ensures AskedAmong(targets, i, true, was, now) && AskedAmong(targets, i + 1, false, was, now)
  {
    forall m | |was| <= m < |now| ensures now[m] in targets[..i + 1] {
      if m < |mid| {
        assert now[m] == mid[m] && targets[..i] <= targets[..i + 1];
      } else {
        assert now[m] == targets[..i + 1][i];
      }
    }
  }

  lemma PassedIsDone(targets: seq<Target>, i: nat, stopped: bool, was: seq<Target>, now: seq<Target>)
    requires AskedAmong(targets, i, stopped, was, now)
    ensures Unrepeated(targets) ==>
              forall k | 0 <= k < |targets| && Passed(targets, k, now[|was|..]) :: k < i
  {
  }

  // ---------------------------------------------------------------------------------------
  // Bookkeeping of positions
  // ---------------------------------------------------------------------------------------

  predicate Unrepeated(targets: seq<Target>) {
    forall i, j | 0 <= i < j < |targets| :: targets[i] != targets[j]
  }

  /** At the beginning nothing is printed and every watched cursor stands where it stood. */
  lemma BeginningIsExact(w: World)
    requires w.start.Keys <= w.logs.Keys && w.start.Keys <= w.pos.Keys && w.start.Keys <= w.printed.Keys
    requires forall t | t in w.start ::
               && DistinctIds(w.logs[t]) && 0 <= w.start[t] == w.pos[t] < |w.logs[t]| && w.printed[t] == []
               && Key(w, t) in w.entries && w.entries[Key(w, t)] == w.logs[t][w.pos[t]].id
    ensures Inv(w) && ExactAll(w)
  {
    forall t: Target ensures TargetOk(w, t) && ExactAt(w, t) {
      if t in w.start {
        var at := w.pos[t];
        assert w.logs[t][at + 1..at + 1] == [];
      }
    }
  }

  /** Consuming a page of one's own messages keeps the exact account. */
  lemma SkipKeepsExact(w: World, v: World, t: Target, p: Page, place: Place)
    requires Inv(w) && Pending(w, t, p, place.from, place.end) && OnlyFrom(p.messages, w.self)
    requires t in w.start ==> t in w.pos && place.from == w.pos[t]
    requires v == Advanced(w, t, p, place.end)
    ensures ExactAll(w) ==> ExactAll(v)
  {
    if ExactAll(w) {
      forall u: Target ensures ExactAt(v, u) {
        assert ExactAt(w, u);
        if u == t {
          OwnPageIsReady(w, t, p, place.from, place.end);
        }
      }
    }
  }

  /** Fetching target `i` does not move the cursors of targets fetched before it. */
  lemma StillAtCursor(w: World, v: World, items: seq<Item>, places: seq<Place>, targets: seq<Target>, i: nat)
    requires i < |targets| && |items| == |places| && Unrepeated(targets) && v.start == w.start
    requires AllAtCursor(w, items, places) && forall k | 0 <= k < |items| :: items[k].target in targets[..i]
    requires forall u | u in w.pos && u != targets[i] :: u in v.pos && v.pos[u] == w.pos[u]
    ensures AllAtCursor(v, items, places)
    ensures forall k | 0 <= k < |items| :: items[k].target != targets[i]
  {
  }

  /** After `n` advances, a target among them stands at its page's end, any other where it was. */
  ghost predicate Landed(w0: World, w: World, items: seq<Item>, places: seq<Place>, n: nat, t: Target)
    requires n <= |items| == |places|
  {
    && w.logs == w0.logs && w.printed == w0.printed && w.start == w0.start && w.self == w0.self
    && (t in w0.start ==>
          && (forall k | 0 <= k < n && items[k].target == t :: t in w.pos && w.pos[t] == places[k].end)
          && ((forall k | 0 <= k < n :: items[k].target != t) && t in w0.pos ==> t in w.pos && w.pos[t] == w0.pos[t]))
  }

  lemma LandedStep(w0: World, w: World, items: seq<Item>, places: seq<Place>, i: nat, t: Target)
    requires i < |items| == |places| && DistinctTargets(items) && items[i].page.messages != []
    requires Landed(w0, w, items, places, i, t)
    requires Ready(w, items[i].target, items[i].page, places[i].end)
    ensures Landed(w0, Advanced(w, items[i].target, items[i].page, places[i].end), items, places, i + 1, t)
  {
  }

  /** A check over distinct targets whose advances all succeeded printed exactly what is new. */
  lemma CheckIsExact(w: World, v: World, items: seq<Item>, places: seq<Place>)
    requires Inv(w) && ExactAll(w) && AllPending(w, items, places) && DistinctTargets(items)
    requires AllAtCursor(w, items, places)
    requires forall t: Target :: Landed(AllShown(w, items), v, items, places, |items|, t)
    ensures ExactAll(v)
  {
    AllShownIsReady(w, items, places);
    ShownOnlyPrints(w, items);
    forall t: Target ensures ExactAt(v, t) {
      assert ExactAt(w, t) && TargetOk(w, t) && Landed(AllShown(w, items), v, items, places, |items|, t);
      if k :| 0 <= k < |items| && items[k].target == t {
        if t in w.start {
          ShownAtIsExact(w, items, k, places[k]);
        }
      } else {
        ShownElsewhere(w, items, t);
      }
    }
  }
}
