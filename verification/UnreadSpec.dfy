/**
 What reading "since last" promises, on values: where a cursor stands in a target's log, what has
 been printed, and why fetching, printing and advancing in that order never loses a message.
 */
module UnreadSpec {
  import opened Utf8
  import opened Arithmetic

  datatype Message = Message(id: nat, from: seq<byte>)

  datatype Page = Page(messages: seq<Message>, hasMore: bool)

  type Log = seq<Message>

  predicate DistinctIds(log: Log) {
    forall i, j | 0 <= i < j < |log| :: log[i].id != log[j].id
  }

  /** The index of message `id`, or -1. */
  function Position(log: Log, id: nat): (i: int)
    ensures -1 <= i < |log|
    ensures i >= 0 ==> log[i].id == id
    ensures i == -1 ==> forall k | 0 <= k < |log| :: log[k].id != id
  {
    if log == [] then -1
    else if log[|log| - 1].id == id then |log| - 1
    else Position(log[..|log| - 1], id)
  }

  /** The page size the server settles on. */
  function PageLimit(limit: int): (n: nat)
    ensures 1 <= n <= 500
  {
    if limit <= 0 then 100 else if limit > 500 then 500 else limit
  }

  /** The paging contract: the next `n` messages after index `i`, oldest first, and whether more
      follow. */
  function PageAfter(log: Log, i: nat, n: nat): (p: Page)
    requires i < |log|
  {
    var end := Min(i + 1 + n, |log|);
    Page(log[i + 1..end], end < |log|)
  }

  /** Without a cursor: the newest `n` messages. */
  function NewestPage(log: Log, n: nat): (p: Page) {
    var from := if |log| < n then 0 else |log| - n;
    Page(log[from..], from > 0)
  }

  /** A message is news unless the reader sent it. The operator, who has no member id, sends
      nothing. */
  predicate News(self: seq<byte>, m: Message) {
    self == [] || m.from != self
  }

  /** The messages a check shows. */
  function Fresh(self: seq<byte>, ms: seq<Message>): (r: seq<Message>) {
    if ms == [] then [] else (if News(self, ms[0]) then [ms[0]] else []) + Fresh(self, ms[1..])
  }

  predicate OnlyFrom(ms: seq<Message>, self: seq<byte>) {
    self != [] && ms != [] && forall i | 0 <= i < |ms| :: ms[i].from == self
  }

  lemma {:induction false} FreshConcat(self: seq<byte>, a: seq<Message>, b: seq<Message>)
    ensures Fresh(self, a + b) == Fresh(self, a) + Fresh(self, b)
  {
    if a == [] {
      assert a + b == b;
    } else {
      assert (a + b)[1..] == a[1..] + b;
      FreshConcat(self, a[1..], b);
    }
  }

  lemma {:induction false} FreshHasNews(self: seq<byte>, ms: seq<Message>, i: nat)
    requires i < |ms| && News(self, ms[i])
    ensures ms[i] in Fresh(self, ms)
  {
    if i > 0 {
      FreshHasNews(self, ms[1..], i - 1);
    }
  }

  lemma {:induction false} OwnPageIsStale(self: seq<byte>, ms: seq<Message>)
    requires self != [] && forall i | 0 <= i < |ms| :: ms[i].from == self
    ensures Fresh(self, ms) == []
  {
    if ms != [] {
      OwnPageIsStale(self, ms[1..]);
    }
  }

  // ---------------------------------------------------------------------------------------
  // One target
  // ---------------------------------------------------------------------------------------

  /** Every news message after `start` up to `upto` is among the printed ones. */
  ghost predicate Covered(self: seq<byte>, log: Log, printed: seq<Message>, start: int, upto: int) {
    forall j | start < j <= upto && 0 <= j < |log| && News(self, log[j]) :: log[j] in printed
  }

  /** Exactly those messages were printed, each once, in log order. */
  ghost predicate Exact(self: seq<byte>, log: Log, printed: seq<Message>, start: int, upto: int) {
    -1 <= start <= upto < |log| && printed == Fresh(self, log[start + 1..upto + 1])
  }

  lemma CoveredGrows(self: seq<byte>, log: Log, more: Log, printed: seq<Message>, extra: seq<Message>, start: int,
                     upto: int)
    requires log <= more && upto < |log| && Covered(self, log, printed, start, upto)
    ensures Covered(self, more, printed + extra, start, upto)
  {
    forall j | start < j <= upto && 0 <= j < |more| && News(self, more[j]) ensures more[j] in printed + extra {
      assert more[j] == log[j];
    }
  }

  /** Printing the page that follows index `from` covers the log up to the page's end. */
  lemma PrintingCovers(self: seq<byte>, log: Log, printed: seq<Message>, start: int, from: nat, end: nat)
    requires from <= end < |log| && Covered(self, log, printed, start, from)
    ensures Covered(self, log, printed + Fresh(self, log[from + 1..end + 1]), start, end)
  {
    var page := log[from + 1..end + 1];
    forall j | start < j <= end && 0 <= j < |log| && News(self, log[j]) ensures log[j] in printed + Fresh(self, page) {
      if j > from {
        assert page[j - from - 1] == log[j];
        FreshHasNews(self, page, j - from - 1);
      }
    }
  }

  lemma PrintingExact(self: seq<byte>, log: Log, printed: seq<Message>, start: int, from: nat, end: nat)
    requires from <= end < |log| && Exact(self, log, printed, start, from)
    ensures Exact(self, log, printed + Fresh(self, log[from + 1..end + 1]), start, end)
  {
    assert log[start + 1..end + 1] == log[start + 1..from + 1] + log[from + 1..end + 1];
    FreshConcat(self, log[start + 1..from + 1], log[from + 1..end + 1]);
  }

  lemma ExactGrows(self: seq<byte>, log: Log, more: Log, printed: seq<Message>, start: int, upto: int)
    requires log <= more && Exact(self, log, printed, start, upto)
    ensures Exact(self, more, printed, start, upto)
  {
    assert more[start + 1..upto + 1] == log[start + 1..upto + 1];
  }

  /** Without a cursor the page is the end of the log, and tells whether there is more in front of it; with one,
      whether there is more behind it. */
  lemma PagesAre(log: Log, i: nat, n: nat)
    requires i < |log| && n >= 1
    ensures var p := NewestPage(log, n);
            && p.messages <= log[|log| - |p.messages|..] && |p.messages| == Min(n, |log|)
            && (p.hasMore <==> |p.messages| < |log|)
    ensures var p := PageAfter(log, i, n);
            && p.messages <= log[i + 1..] && |p.messages| == Min(n, |log| - 1 - i)
            && (p.hasMore <==> i + 1 + |p.messages| < |log|)
    ensures PageLimit(n) == Min(n, 500) && PageLimit(0) == 100
  {
  }
}
