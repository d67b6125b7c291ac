/**
 The end-of-turn check: read every target since its stored cursor, print what is new, and only then
 advance the cursors.

 Fetches, the print and each cursor write may fail; other participants may post between any two
 steps. The server is the paging contract of `UnreadSpec`.
 */
module Unread {
  import opened Utf8
  import opened CursorKeys
  import opened UnreadSpec

  const MAX_OWN_PAGES: nat := 10

  /** The reader's world. `start` fixes, per watched target, where its stored cursor stood when
      the story began; `pos` is where it stands now; `printed` is what the operator saw. */
  datatype World = World(
    who: Identity, self: seq<byte>,
    logs: map<Target, Log>, entries: map<seq<byte>, nat>,
    printed: map<Target, seq<Message>>, start: map<Target, int>, pos: map<Target, nat>)

  function Key(w: World, t: Target): (k: seq<byte>) {
    ReadCursorKey(w.who, t)
  }

  /** A watched target's cursor is stored, stands on a retained message, and has passed no news
      that was not printed. */
  ghost predicate TargetOk(w: World, t: Target) {
    t in w.start ==>
      && t in w.logs && t in w.pos && t in w.printed
      && DistinctIds(w.logs[t])
      && -1 <= w.start[t] <= w.pos[t] < |w.logs[t]|
      && Key(w, t) in w.entries && w.entries[Key(w, t)] == w.logs[t][w.pos[t]].id
      && Covered(w.self, w.logs[t], w.printed[t], w.start[t], w.pos[t])
  }

  ghost predicate Inv(w: World) {
    forall t: Target :: TargetOk(w, t)
  }

  /** Exactly the news up to the cursor was printed, each message once, in log order. */
  ghost predicate ExactAt(w: World, t: Target) {
    t in w.start ==>
      t in w.logs && t in w.pos && t in w.printed && Exact(w.self, w.logs[t], w.printed[t], w.start[t], w.pos[t])
  }

  ghost predicate ExactAll(w: World) {
    forall t: Target :: ExactAt(w, t)
  }

  /** Messages only arrive at the end of a log, and their ids stay distinct. */
  predicate Grows(logs: map<Target, Log>, more: map<Target, Log>) {
    && (forall t | t in logs :: t in more && logs[t] <= more[t])
    && (forall t | t in more :: DistinctIds(more[t]))
  }

  /** Nothing is taken back: logs and output only grow, and the story keeps its beginning. */
  ghost predicate ExtendsAt(w: World, v: World, t: Target) {
    t in w.start ==>
      && (t in w.logs ==> t in v.logs && w.logs[t] <= v.logs[t])
      && (t in w.printed ==> t in v.printed && w.printed[t] <= v.printed[t])
  }

  ghost predicate Extends(w: World, v: World) {
    v.who == w.who && v.self == w.self && v.start == w.start && forall t: Target :: ExtendsAt(w, v, t)
  }

  /** A page fetched after index `from` and ending at `end`, before it is printed. */
  ghost predicate Pending(w: World, t: Target, p: Page, from: int, end: int) {
    t in w.start ==>
      && t in w.logs && t in w.printed
      && -1 <= w.start[t] <= from <= end < |w.logs[t]| && 0 <= from
      && p.messages == w.logs[t][from + 1..end + 1]
      && Covered(w.self, w.logs[t], w.printed[t], w.start[t], from)
  }

  /** The same page once its news was printed: the cursor may move to its last message. */
  ghost predicate Ready(w: World, t: Target, p: Page, end: int) {
    t in w.start ==>
      && t in w.logs && t in w.printed && p.messages != []
      && -1 <= w.start[t] <= end < |w.logs[t]| && 0 <= end
      && p.messages[|p.messages| - 1] == w.logs[t][end]
      && Covered(w.self, w.logs[t], w.printed[t], w.start[t], end)
  }

  // ---------------------------------------------------------------------------------------
  // The steps, on values
  // ---------------------------------------------------------------------------------------

  lemma GrowKeeps(w: World, more: map<Target, Log>)
    requires Inv(w) && Grows(w.logs, more)
    ensures var v := w.(logs := more); Inv(v) && Extends(w, v) && (ExactAll(w) ==> ExactAll(v))
  {
    var v := w.(logs := more);
    forall t: Target ensures TargetOk(v, t) && ExtendsAt(w, v, t) && (ExactAt(w, t) ==> ExactAt(v, t)) {
      assert TargetOk(w, t);
      if t in w.start {
        assert w.printed[t] + [] == w.printed[t];
        CoveredGrows(w.self, w.logs[t], more[t], w.printed[t], [], w.start[t], w.pos[t]);
        if ExactAt(w, t) {
          ExactGrows(w.self, w.logs[t], more[t], w.printed[t], w.start[t], w.pos[t]);
        }
      }
    }
  }

  lemma PendingKept(w: World, v: World, t: Target, p: Page, from: int, end: int)
    requires Pending(w, t, p, from, end) && Extends(w, v)
    ensures Pending(v, t, p, from, end)
  {
    assert ExtendsAt(w, v, t);
    if t in w.start {
      var extra := v.printed[t][|w.printed[t]|..];
      assert v.printed[t] == w.printed[t] + extra;
      CoveredGrows(w.self, w.logs[t], v.logs[t], w.printed[t], extra, w.start[t], from);
      assert v.logs[t][from + 1..end + 1] == w.logs[t][from + 1..end + 1];
    }
  }

  lemma ReadyKept(w: World, v: World, t: Target, p: Page, end: int)
    requires Ready(w, t, p, end) && Extends(w, v)
    ensures Ready(v, t, p, end)
  {
    assert ExtendsAt(w, v, t);
    if t in w.start {
      var extra := v.printed[t][|w.printed[t]|..];
      assert v.printed[t] == w.printed[t] + extra;
      CoveredGrows(w.self, w.logs[t], v.logs[t], w.printed[t], extra, w.start[t], end);
    }
  }

  lemma ExtendsTrans(w: World, v: World, u: World)
    requires Extends(w, v) && Extends(v, u)
    ensures Extends(w, u)
  {
    forall t: Target ensures ExtendsAt(w, u, t) {
      assert ExtendsAt(w, v, t) && ExtendsAt(v, u, t);
    }
  }

  /** The world after the operator saw page `p` of target `t`. */
  function Shown(w: World, t: Target, p: Page): (v: World) {
    w.(printed := if t in w.printed then w.printed[t := w.printed[t] + Fresh(w.self, p.messages)] else w.printed)
  }

  lemma ShownKeeps(w: World, t: Target, p: Page)
    requires Inv(w)
    ensures Inv(Shown(w, t, p)) && Extends(w, Shown(w, t, p))
  {
    var v := Shown(w, t, p);
    forall u: Target ensures TargetOk(v, u) && ExtendsAt(w, v, u) {
      assert TargetOk(w, u);
      if u in w.start && u == t {
        CoveredGrows(w.self, w.logs[u], w.logs[u], w.printed[u], Fresh(w.self, p.messages), w.start[u], w.pos[u]);
      }
    }
  }

  /** Showing a pending page makes it ready. */
  lemma ShownIsReady(w: World, t: Target, p: Page, from: int, end: int)
    requires Pending(w, t, p, from, end) && p.messages != []
    ensures Ready(Shown(w, t, p), t, p, end)
  {
    if t in w.start {
      PrintingCovers(w.self, w.logs[t], w.printed[t], w.start[t], from, end);
      assert p.messages[|p.messages| - 1] == w.logs[t][end];
    }
  }

  /** The world after the cursor of `t` moved to the last message of `p`, at index `end`. */
  function Advanced(w: World, t: Target, p: Page, end: int): (v: World)
    requires p.messages != []
  {
    w.(entries := w.entries[Key(w, t) := p.messages[|p.messages| - 1].id],
       pos := if t in w.start && end >= 0 then w.pos[t := end] else w.pos)
  }

  /** Moving one cursor keeps every target's promise: keys are never shared. */
  lemma AdvanceKeeps(w: World, t: Target, p: Page, end: int)
    requires Inv(w) && p.messages != [] && Ready(w, t, p, end)
    ensures Inv(Advanced(w, t, p, end)) && Extends(w, Advanced(w, t, p, end))
  {
    var v := Advanced(w, t, p, end);
    forall u: Target ensures TargetOk(v, u) && ExtendsAt(w, v, u) {
      assert TargetOk(w, u);
      KeyInjective(w.who, t, w.who, u);
    }
  }

  /** A page of the reader's own messages is ready without being shown. */
  lemma OwnPageIsReady(w: World, t: Target, p: Page, from: int, end: int)
    requires Pending(w, t, p, from, end) && OnlyFrom(p.messages, w.self)
    ensures Ready(w, t, p, end)
    ensures t in w.start && t in w.logs && Exact(w.self, w.logs[t], w.printed[t], w.start[t], from) ==>
              Exact(w.self, w.logs[t], w.printed[t], w.start[t], end)
  {
    OwnPageIsStale(w.self, p.messages);
    if t in w.start {
      PrintingCovers(w.self, w.logs[t], w.printed[t], w.start[t], from, end);
      assert w.printed[t] + [] == w.printed[t];
      assert p.messages[|p.messages| - 1] == w.logs[t][end];
      if Exact(w.self, w.logs[t], w.printed[t], w.start[t], from) {
        PrintingExact(w.self, w.logs[t], w.printed[t], w.start[t], from, end);
      }
    }
  }

  /** What the server returns after a watched cursor is pending there. */
  lemma PageIsPending(w: World, t: Target, n: nat)
    requires Inv(w) && t in w.start && n >= 1
    ensures t in w.logs && t in w.pos && w.pos[t] < |w.logs[t]|
    ensures Key(w, t) in w.entries && Position(w.logs[t], w.entries[Key(w, t)]) == w.pos[t]
    ensures var p := PageAfter(w.logs[t], w.pos[t], n);
            Pending(w, t, p, w.pos[t], w.pos[t] + |p.messages|)
  {
    assert TargetOk(w, t);
  }

  // ---------------------------------------------------------------------------------------
  // A fetched page and its place
  // ---------------------------------------------------------------------------------------

  datatype Item = Item(target: Target, page: Page)

  /** Where an item's page lies in its log. */
  datatype Place = Place(from: int, end: int)

  ghost predicate AllPending(w: World, items: seq<Item>, places: seq<Place>) {
    && |items| == |places|
    && forall k | 0 <= k < |items| ::
         items[k].page.messages != [] && Pending(w, items[k].target, items[k].page, places[k].from, places[k].end)
  }

  ghost predicate AllReady(w: World, items: seq<Item>, places: seq<Place>) {
    && |items| == |places|
    && forall k | 0 <= k < |items| ::
         items[k].page.messages != [] && Ready(w, items[k].target, items[k].page, places[k].end)
  }

  lemma AllPendingKept(w: World, v: World, items: seq<Item>, places: seq<Place>)
    requires AllPending(w, items, places) && Extends(w, v)
    ensures AllPending(v, items, places)
  {
    forall k | 0 <= k < |items| ensures Pending(v, items[k].target, items[k].page, places[k].from, places[k].end) {
      PendingKept(w, v, items[k].target, items[k].page, places[k].from, places[k].end);
    }
  }

  lemma AllReadyKept(w: World, v: World, items: seq<Item>, places: seq<Place>)
    requires AllReady(w, items, places) && Extends(w, v)
    ensures AllReady(v, items, places)
  {
    forall k | 0 <= k < |items| ensures Ready(v, items[k].target, items[k].page, places[k].end) {
      ReadyKept(w, v, items[k].target, items[k].page, places[k].end);
    }
  }

  /** The world after all items were shown. */
  function AllShown(w: World, items: seq<Item>): (v: World)
    decreases |items|
  {
    if items == [] then w else AllShown(Shown(w, items[0].target, items[0].page), items[1..])
  }

  /** Showing any pages, fetched or cut short, loses nothing. */
  lemma {:induction false} AllShownKeeps(w: World, items: seq<Item>)
    requires Inv(w)
    ensures Inv(AllShown(w, items)) && Extends(w, AllShown(w, items))
    decreases |items|
  {
    if items == [] {
      forall t: Target ensures ExtendsAt(w, w, t) {
        assert TargetOk(w, t);
      }
    } else {
      var v := Shown(w, items[0].target, items[0].page);
      ShownKeeps(w, items[0].target, items[0].page);
      AllShownKeeps(v, items[1..]);
      ExtendsTrans(w, v, AllShown(w, items));
    }
  }

  /** What a write that broke off has shown: some items, and some messages of the next. */
  function CutShort(items: seq<Item>, k: nat, n: nat): (r: seq<Item>) {
    if k >= |items| then items
    else
      var i := items[k];
      items[..k] + [Item(i.target, i.page.(messages := if n <= |i.page.messages| then i.page.messages[..n]
                                                       else i.page.messages))]
  }

  /** Showing all fetched pages makes them all ready. */
  lemma {:induction false} AllShownIsReady(w: World, items: seq<Item>, places: seq<Place>)
    requires Inv(w) && AllPending(w, items, places)
    ensures Inv(AllShown(w, items)) && Extends(w, AllShown(w, items))
    ensures AllReady(AllShown(w, items), items, places)
    ensures AllShown(w, items).pos == w.pos
    decreases |items|
  {
    if items == [] {
      AllShownKeeps(w, items);
    } else {
      var i, p := items[0], places[0];
      var v := Shown(w, i.target, i.page);
      ShownKeeps(w, i.target, i.page);
      ShownIsReady(w, i.target, i.page, p.from, p.end);
      AllPendingKept(w, v, items, places);
      AllShownIsReady(v, items[1..], places[1..]);
      var u := AllShown(w, items);
      ReadyKept(v, u, i.target, i.page, p.end);
      ExtendsTrans(w, v, u);
      forall k | 0 <= k < |items| ensures Ready(u, items[k].target, items[k].page, places[k].end) {
        if k > 0 {
          assert items[1..][k - 1] == items[k] && places[1..][k - 1] == places[k];
        }
      }
    }
  }

  /** With no news in any page, showing them all shows nothing. */
  lemma {:induction false} NothingToShow(w: World, items: seq<Item>)
    requires forall k | 0 <= k < |items| :: Fresh(w.self, items[k].page.messages) == []
    ensures AllShown(w, items) == w
    decreases |items|
  {
    if items != [] {
      var t := items[0].target;
      if t in w.printed {
        assert w.printed[t] + [] == w.printed[t];
        assert w.printed[t := w.printed[t]] == w.printed;
      }
      assert Shown(w, t, items[0].page) == w;
      NothingToShow(w, items[1..]);
    }
  }

  // ---------------------------------------------------------------------------------------
  // Exactness through showing and advancing
  // ---------------------------------------------------------------------------------------

  predicate DistinctTargets(items: seq<Item>) {
    forall i, j | 0 <= i < j < |items| :: items[i].target != items[j].target
  }

  /** Each page was fetched at its target's present cursor. */
  predicate AllAtCursor(w: World, items: seq<Item>, places: seq<Place>)
    requires |items| == |places|
  {
    forall k | 0 <= k < |items| ::
      items[k].target in w.start ==> items[k].target in w.pos && places[k].from == w.pos[items[k].target]
  }

  lemma {:induction false} ShownElsewhere(w: World, items: seq<Item>, t: Target)
    requires forall k | 0 <= k < |items| :: items[k].target != t
    ensures var v := AllShown(w, items);
            && v.logs == w.logs && v.start == w.start && v.pos == w.pos && v.self == w.self && v.entries == w.entries
            && v.printed.Keys == w.printed.Keys && (t in w.printed ==> v.printed[t] == w.printed[t])
    decreases |items|
  {
    if items != [] {
      ShownElsewhere(Shown(w, items[0].target, items[0].page), items[1..], t);
    }
  }

  /** Among distinct targets, showing all pages shows each target its own. */
  lemma {:induction false} ShownAt(w: World, items: seq<Item>, k: nat)
    requires k < |items| && DistinctTargets(items) && items[k].target in w.printed
    ensures var v, t := AllShown(w, items), items[k].target;
            && v.logs == w.logs && v.start == w.start && v.self == w.self
            && t in v.printed && v.printed[t] == w.printed[t] + Fresh(w.self, items[k].page.messages)
    decreases |items|
  {
    var v := Shown(w, items[0].target, items[0].page);
    if k == 0 {
      ShownElsewhere(v, items[1..], items[0].target);
    } else {
      assert items[1..][k - 1] == items[k];
      ShownAt(v, items[1..], k - 1);
    }
  }

  /** A page fetched at its cursor and shown once leaves its target printed exactly to its end. */
  lemma ShownAtIsExact(w: World, items: seq<Item>, k: nat, place: Place)
    requires DistinctTargets(items) && k < |items| && items[k].target in w.start && items[k].target in w.pos
    requires Pending(w, items[k].target, items[k].page, place.from, place.end)
    requires place.from == w.pos[items[k].target] && ExactAt(w, items[k].target)
    ensures var v, t := AllShown(w, items), items[k].target;
            && t in v.start && t in v.logs && t in v.printed
            && Exact(v.self, v.logs[t], v.printed[t], v.start[t], place.end)
  {
    var t := items[k].target;
    ShownAt(w, items, k);
    PrintingExact(w.self, w.logs[t], w.printed[t], w.start[t], place.from, place.end);
  }

  lemma {:induction false} ShownOnlyPrints(w: World, items: seq<Item>)
    ensures AllShown(w, items) == w.(printed := AllShown(w, items).printed)
    decreases |items|
  {
    if items != [] {
      ShownOnlyPrints(Shown(w, items[0].target, items[0].page), items[1..]);
    }
  }
}
