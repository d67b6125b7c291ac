/**
 `writeFileIfMissing` among any number of processes: write a temp file, sync it, publish it under
 the final path without ever replacing what is there, clean up.

 Every system call is one step, on one directory. A process can be killed before any step, any call
 can fail, and the machine can lose power, keeping of each file what was synced and of the directory
 whatever it had written down.
 */
module Publish {

  datatype Name = Dest | Temp(inode: nat)

  /** What a name refers to: a file some call here created, or anything that was there before. */
  datatype Entry = File(inode: nat) | Foreign

  /** A file: its contents as read back now, what would survive a power loss, and the call that
      created it. */
  datatype Inode = Inode(content: seq<int>, durable: seq<int>, owner: nat)

  datatype Result = Created | Exists | Failed

  /** How far a call has come. `Linked` exists only where publishing is link and unlink. */
  datatype Pc =
    | Begun
    | Checked
    | Writing(temp: nat)
    | Written(temp: nat)
    | Synced(temp: nat)
    | Closed(temp: nat)
    | Linked(temp: nat)
    | Published(temp: nat)
    | Cleanup(temp: nat, failed: bool)
    | Done(result: Result)
    | Killed

  datatype Proc = Proc(text: seq<int>, pc: Pc)

  datatype Winner = Nobody | Won(proc: nat)

  datatype Dir = Dir(
    names: map<Name, Entry>, inodes: map<nat, Inode>, procs: map<nat, Proc>,
    winner: Winner, entryDurable: bool)

  datatype Step =
    | Begin(p: nat, text: seq<int>)
    | Lstat(p: nat)
    | CreateTemp(p: nat, inode: nat)
    | WriteSome(p: nat, n: nat)
    | WriteEnds(p: nat)
    | Sync(p: nat)
    | Close(p: nat)
    | RenameNoReplace(p: nat)
    | Link(p: nat)
    | Unlink(p: nat, removed: bool)
    | SyncDir(p: nat, durable: bool)
    | RemoveTemp(p: nat, removed: bool)
    | Fail(p: nat)
    | Kill(p: nat)
    | PowerLoss(kept: set<Name>)

  predicate At(s: Dir, p: nat) {
    p in s.procs && !s.procs[p].pc.Done? && !s.procs[p].pc.Killed?
  }

  predicate Enabled(s: Dir, a: Step) {
    match a
    case Begin(p, _) => p !in s.procs
    case Lstat(p) => p in s.procs && s.procs[p].pc == Begun
    case CreateTemp(p, k) => p in s.procs && s.procs[p].pc == Checked && k !in s.inodes && Temp(k) !in s.names
    case WriteSome(p, n) =>
      && p in s.procs && s.procs[p].pc.Writing? && s.procs[p].pc.temp in s.inodes
      && |s.inodes[s.procs[p].pc.temp].content| + n <= |s.procs[p].text|
    case WriteEnds(p) =>
      && p in s.procs && s.procs[p].pc.Writing? && s.procs[p].pc.temp in s.inodes
      && |s.inodes[s.procs[p].pc.temp].content| == |s.procs[p].text|
    case Sync(p) => p in s.procs && s.procs[p].pc.Written? && s.procs[p].pc.temp in s.inodes
    case Close(p) => p in s.procs && s.procs[p].pc.Synced?
    case RenameNoReplace(p) => p in s.procs && s.procs[p].pc.Closed?
    case Link(p) => p in s.procs && s.procs[p].pc.Closed?
    case Unlink(p, _) => p in s.procs && s.procs[p].pc.Linked?
    case SyncDir(p, _) => p in s.procs && s.procs[p].pc.Published?
    case RemoveTemp(p, _) => p in s.procs && s.procs[p].pc.Cleanup?
    case Fail(p) => At(s, p) && !s.procs[p].pc.Linked? && !s.procs[p].pc.Published? && !s.procs[p].pc.Cleanup?
    case Kill(p) => At(s, p)
    case PowerLoss(kept) => s.entryDurable ==> Dest in kept
  }

  function Move(s: Dir, p: nat, pc: Pc): (r: Dir)
    requires p in s.procs
  {
    s.(procs := s.procs[p := s.procs[p].(pc := pc)])
  }

  function KillAll(ps: map<nat, Proc>): (r: map<nat, Proc>) {
    map p | p in ps :: if ps[p].pc.Done? then ps[p] else ps[p].(pc := Killed)
  }

  function Do(s: Dir, a: Step): (r: Dir)
    requires Enabled(s, a)
  {
    match a
    case Begin(p, text) => s.(procs := s.procs[p := Proc(text, Begun)])
    case Lstat(p) => Move(s, p, if Dest in s.names then Done(Exists) else Checked)
    case CreateTemp(p, k) =>
      Move(s, p, Writing(k)).(names := s.names[Temp(k) := File(k)], inodes := s.inodes[k := Inode([], [], p)])
    case WriteSome(p, n) =>
      var k := s.procs[p].pc.temp;
      var m := |s.inodes[k].content|;
      s.(inodes := s.inodes[k := s.inodes[k].(content := s.procs[p].text[..m + n])])
    case WriteEnds(p) => Move(s, p, Written(s.procs[p].pc.temp))
    case Sync(p) =>
      var k := s.procs[p].pc.temp;
      Move(s, p, Synced(k)).(inodes := s.inodes[k := s.inodes[k].(durable := s.inodes[k].content)])
    case Close(p) => Move(s, p, Closed(s.procs[p].pc.temp))
    case RenameNoReplace(p) =>
      var k := s.procs[p].pc.temp;
      if Dest in s.names then Move(s, p, Cleanup(k, false))
      else Move(s, p, Published(k)).(names := (s.names - {Temp(k)})[Dest := File(k)], winner := Won(p))
    case Link(p) =>
      var k := s.procs[p].pc.temp;
      if Dest in s.names then Move(s, p, Cleanup(k, false))
      else Move(s, p, Linked(k)).(names := s.names[Dest := File(k)], winner := Won(p))
    case Unlink(p, removed) =>
      var k := s.procs[p].pc.temp;
      Move(s, p, Published(k)).(names := if removed then s.names - {Temp(k)} else s.names)
    case SyncDir(p, durable) =>
      Move(s, p, Done(Created)).(entryDurable := s.entryDurable || durable)
    case RemoveTemp(p, removed) =>
      var pc := s.procs[p].pc;
      Move(s, p, Done(if pc.failed then Failed else Exists))
        .(names := if removed then s.names - {Temp(pc.temp)} else s.names)
    case Fail(p) =>
      var pc := s.procs[p].pc;
      Move(s, p, if pc.Begun? || pc.Checked? then Done(Failed) else Cleanup(pc.temp, true))
    case Kill(p) => Move(s, p, Killed)
    case PowerLoss(kept) =>
      s.(names := map n | n in s.names && n in kept :: s.names[n],
         inodes := map k | k in s.inodes :: s.inodes[k].(content := s.inodes[k].durable),
         procs := KillAll(s.procs))
  }

  /** Before any call: whatever is at the path is foreign. */
  predicate Initial(s: Dir) {
    && s.inodes == map[] && s.procs == map[] && s.winner == Nobody && !s.entryDurable
    && forall n | n in s.names :: n == Dest && s.names[n] == Foreign
  }

  // ---------------------------------------------------------------------------------------
  // No partial content, whatever crashes
  // ---------------------------------------------------------------------------------------

  /** File `k` is, durably, the whole text of the call that created it. */
  predicate Complete(s: Dir, k: nat) {
    && k in s.inodes && s.inodes[k].owner in s.procs
    && s.inodes[k].content == s.inodes[k].durable == s.procs[s.inodes[k].owner].text
  }

  /** The path refers to something foreign or to a complete file. */
  predicate DestOk(s: Dir) {
    Dest in s.names && s.names[Dest].File? ==> Complete(s, s.names[Dest].inode)
  }

  /** The call holds a temp file. */
  predicate HasTemp(pc: Pc) {
    pc.Writing? || pc.Written? || pc.Synced? || pc.Closed? || pc.Linked? || pc.Published? || pc.Cleanup?
  }

  predicate Unpublished(pc: Pc) {
    pc.Writing? || pc.Written? || pc.Synced? || pc.Closed?
  }

  /** A call's temp file is its own, holds its text as far as it has come, and is not yet at the
      path. */
  predicate ProcOk(s: Dir, p: nat) {
    p in s.procs ==>
      var pc := s.procs[p].pc;
      && (HasTemp(pc) ==> pc.temp in s.inodes && s.inodes[pc.temp].owner == p)
      && (pc.Writing? ==> s.inodes[pc.temp].content <= s.procs[p].text)
      && (pc.Written? ==> s.inodes[pc.temp].content == s.procs[p].text)
      && (pc.Synced? || pc.Closed? || pc.Linked? || pc.Published? ==> Complete(s, pc.temp))
      && (Unpublished(pc) && Dest in s.names ==> s.names[Dest] != File(pc.temp))
  }

  ghost predicate Inv(s: Dir) {
    DestOk(s) && forall p: nat :: ProcOk(s, p)
  }

  lemma InitialInv(s: Dir)
    requires Initial(s)
    ensures Inv(s)
  {
  }

  lemma DestKept(s: Dir, a: Step)
    requires Inv(s) && Enabled(s, a)
    ensures DestOk(Do(s, a))
  {
    if !a.PowerLoss? {
      assert ProcOk(s, a.p);
    }
  }

  /** The steps that fill the temp file. */
  predicate Filling(a: Step) {
    a.Begin? || a.Lstat? || a.CreateTemp? || a.WriteSome? || a.WriteEnds? || a.Sync? || a.Close?
  }

  lemma FillingKept(s: Dir, a: Step)
    requires Inv(s) && Enabled(s, a) && Filling(a)
    ensures ProcOk(Do(s, a), a.p)
  {
    assert ProcOk(s, a.p);
  }

  lemma OwnKept(s: Dir, a: Step)
    requires Inv(s) && Enabled(s, a) && !a.PowerLoss?
    ensures ProcOk(Do(s, a), a.p)
  {
    if Filling(a) {
      FillingKept(s, a);
    } else {
      assert ProcOk(s, a.p);
    }
  }

  /** A step of one call leaves every other call's file alone. */
  lemma OtherKept(s: Dir, a: Step, p: nat)
    requires Inv(s) && Enabled(s, a) && !a.PowerLoss? && a.p != p
    ensures ProcOk(Do(s, a), p)
  {
    assert ProcOk(s, p) && ProcOk(s, a.p);
  }

  lemma StepKeepsInv(s: Dir, a: Step)
    requires Inv(s) && Enabled(s, a)
    ensures Inv(Do(s, a))
  {
    DestKept(s, a);
    forall p: nat ensures ProcOk(Do(s, a), p) {
      if a.PowerLoss? {
        assert ProcOk(s, p);
      } else if a.p == p {
        OwnKept(s, a);
      } else {
        OtherKept(s, a, p);
      }
    }
  }

  // ---------------------------------------------------------------------------------------
  // Runs
  // ---------------------------------------------------------------------------------------

  predicate IsRun(s: Dir, steps: seq<Step>)
    decreases |steps|
  {
    steps == [] || (Enabled(s, steps[0]) && IsRun(Do(s, steps[0]), steps[1..]))
  }

  function After(s: Dir, steps: seq<Step>): (t: Dir)
    requires IsRun(s, steps)
    decreases |steps|
  {
    if steps == [] then s else After(Do(s, steps[0]), steps[1..])
  }

  lemma {:induction false} RunKeepsInv(s: Dir, steps: seq<Step>)
    requires Inv(s) && IsRun(s, steps)
    ensures Inv(After(s, steps))
    decreases |steps|
  {
    if steps != [] {
      StepKeepsInv(s, steps[0]);
      RunKeepsInv(Do(s, steps[0]), steps[1..]);
    }
  }

  /** Over every interleaving, with calls killed and failing anywhere and the power lost any number
      of times, the path never holds anything but the whole text of one call, or what was there
      before. */
  lemma NeverPartial(s: Dir, steps: seq<Step>)
    requires Initial(s) && IsRun(s, steps)
    ensures var t := After(s, steps);
            Dest in t.names && t.names[Dest].File? ==>
              var k := t.names[Dest].inode;
              k in t.inodes && t.inodes[k].owner in t.procs && t.inodes[k].content == t.procs[t.inodes[k].owner].text
  {
    InitialInv(s);
    RunKeepsInv(s, steps);
  }

  // ---------------------------------------------------------------------------------------
  // One winner, never replaced
  // ---------------------------------------------------------------------------------------

  predicate Powered(steps: seq<Step>) {
    forall i | 0 <= i < |steps| :: !steps[i].PowerLoss?
  }

  /** The call has published, whether or not it has returned. */
  predicate Claims(pc: Pc) {
    pc.Linked? || pc.Published? || pc == Done(Created)
  }

  predicate ClaimOk(s: Dir, p: nat) {
    p in s.procs && Claims(s.procs[p].pc) ==> s.winner == Won(p)
  }

  /** A file at the path is the winner's, and a winner's file is at the path. */
  predicate WinnerOk(s: Dir) {
    && (Dest in s.names && s.names[Dest].File? ==> s.winner.Won?)
    && (s.winner.Won? ==>
          && s.winner.proc in s.procs && Dest in s.names && s.names[Dest].File?
          && s.names[Dest].inode in s.inodes && s.inodes[s.names[Dest].inode].owner == s.winner.proc)
  }

  ghost predicate OneWinner(s: Dir) {
    WinnerOk(s) && forall p: nat :: ClaimOk(s, p)
  }

  /** While the power stays on, what is at the path stays there and at most one call claims it. */
  lemma StepKeepsWinner(s: Dir, a: Step)
    requires Inv(s) && OneWinner(s) && Enabled(s, a) && !a.PowerLoss?
    ensures OneWinner(Do(s, a))
    ensures Dest in s.names ==> Dest in Do(s, a).names && Do(s, a).names[Dest] == s.names[Dest]
  {
    assert ProcOk(s, a.p) && ClaimOk(s, a.p);
    forall p: nat ensures ClaimOk(Do(s, a), p) {
      assert ClaimOk(s, p);
    }
  }

  lemma {:induction false} RunKeepsWinner(s: Dir, steps: seq<Step>)
    requires Inv(s) && OneWinner(s) && IsRun(s, steps) && Powered(steps)
    ensures Inv(After(s, steps)) && OneWinner(After(s, steps))
    ensures Dest in s.names ==> Dest in After(s, steps).names && After(s, steps).names[Dest] == s.names[Dest]
    decreases |steps|
  {
    if steps != [] {
      StepKeepsInv(s, steps[0]);
      StepKeepsWinner(s, steps[0]);
      RunKeepsWinner(Do(s, steps[0]), steps[1..]);
    }
  }

  lemma {:induction false} RunSplit(s: Dir, steps: seq<Step>, i: nat)
    requires IsRun(s, steps) && i <= |steps|
    ensures IsRun(s, steps[..i]) && IsRun(After(s, steps[..i]), steps[i..])
    ensures After(s, steps) == After(After(s, steps[..i]), steps[i..])
    decreases |steps|
  {
    if i == 0 {
      assert steps[..0] == [] && steps[0..] == steps;
    } else {
      RunSplit(Do(s, steps[0]), steps[1..], i - 1);
      assert steps[..i][1..] == steps[1..][..i - 1] && steps[1..][i - 1..] == steps[i..];
    }
  }

  /** An entry once at the path is never replaced: it is the same at every later point. */
  lemma NeverReplaced(s: Dir, steps: seq<Step>, i: nat)
    requires Initial(s) && IsRun(s, steps) && Powered(steps) && i <= |steps|
    ensures IsRun(s, steps[..i])
    ensures var m, t := After(s, steps[..i]), After(s, steps);
            Dest in m.names ==> Dest in t.names && t.names[Dest] == m.names[Dest]
  {
    InitialInv(s);
    RunSplit(s, steps, i);
    assert OneWinner(s);
    RunKeepsWinner(s, steps[..i]);
    RunKeepsWinner(After(s, steps[..i]), steps[i..]);
  }

  /** At most one call reports that it created the file, and then the path holds its whole text. */
  lemma AtMostOneCreates(s: Dir, steps: seq<Step>, p: nat, q: nat)
    requires Initial(s) && IsRun(s, steps) && Powered(steps)
    requires var ps := After(s, steps).procs;
             p in ps && q in ps && ps[p].pc == Done(Created) && ps[q].pc == Done(Created)
    ensures p == q
    ensures var t := After(s, steps);
            Dest in t.names && t.names[Dest].File? && t.names[Dest].inode in t.inodes
            && t.inodes[t.names[Dest].inode].content == t.procs[p].text
  {
    InitialInv(s);
    RunKeepsWinner(s, steps);
    var t := After(s, steps);
    assert ClaimOk(t, p) && ClaimOk(t, q);
  }

  // ---------------------------------------------------------------------------------------
  // Durable once the directory is synced
  // ---------------------------------------------------------------------------------------

  /** A call that has published, and not returned, has its file at the path. */
  predicate HoldsPath(s: Dir, p: nat) {
    p in s.procs && (s.procs[p].pc.Linked? || s.procs[p].pc.Published?) ==>
      Dest in s.names && s.names[Dest] == File(s.procs[p].pc.temp)
  }

  ghost predicate AllHoldPath(s: Dir) {
    forall p: nat :: HoldsPath(s, p)
  }

  lemma StepKeepsPath(s: Dir, a: Step, p: nat)
    requires Enabled(s, a) && HoldsPath(s, p)
    ensures HoldsPath(Do(s, a), p)
  {
  }

  lemma {:induction false} RunKeepsPath(s: Dir, steps: seq<Step>)
    requires AllHoldPath(s) && IsRun(s, steps)
    ensures AllHoldPath(After(s, steps))
    decreases |steps|
  {
    if steps != [] {
      forall p: nat ensures HoldsPath(Do(s, steps[0]), p) {
        StepKeepsPath(s, steps[0], p);
      }
      RunKeepsPath(Do(s, steps[0]), steps[1..]);
    }
  }

  /** The path refers, durably, to file `k`, which is the whole text of call `p`. */
  predicate Anchored(s: Dir, k: nat, p: nat, text: seq<int>) {
    && s.entryDurable && Dest in s.names && s.names[Dest] == File(k) && Complete(s, k)
    && s.inodes[k].owner == p && s.procs[p].text == text
  }

  lemma StepKeepsAnchor(s: Dir, a: Step, k: nat, p: nat, text: seq<int>)
    requires Inv(s) && Enabled(s, a) && Anchored(s, k, p, text)
    ensures Anchored(Do(s, a), k, p, text)
  {
    if !a.PowerLoss? {
      assert ProcOk(s, a.p);
    }
  }

  lemma {:induction false} RunKeepsAnchor(s: Dir, steps: seq<Step>, k: nat, p: nat, text: seq<int>)
    requires Inv(s) && IsRun(s, steps) && Anchored(s, k, p, text)
    ensures Anchored(After(s, steps), k, p, text)
    decreases |steps|
  {
    if steps != [] {
      StepKeepsInv(s, steps[0]);
      StepKeepsAnchor(s, steps[0], k, p, text);
      RunKeepsAnchor(Do(s, steps[0]), steps[1..], k, p, text);
    }
  }

  /** Once a call's directory sync has succeeded, and with it the call, the path holds that call's whole
      text in every later state, through any number of power losses. */
  lemma DurableForever(s: Dir, steps: seq<Step>, p: nat, later: seq<Step>)
    requires Initial(s) && IsRun(s, steps) && Enabled(After(s, steps), SyncDir(p, true))
    requires IsRun(Do(After(s, steps), SyncDir(p, true)), later)
    ensures var t := After(Do(After(s, steps), SyncDir(p, true)), later);
            && Dest in t.names && t.names[Dest].File? && t.names[Dest].inode in t.inodes
            && t.inodes[t.names[Dest].inode].content == After(s, steps).procs[p].text
  {
    InitialInv(s);
    RunKeepsInv(s, steps);
    RunKeepsPath(s, steps);
    var m := After(s, steps);
    assert ProcOk(m, p) && HoldsPath(m, p);
    var n := Do(m, SyncDir(p, true));
    StepKeepsInv(m, SyncDir(p, true));
    RunKeepsAnchor(n, later, m.procs[p].pc.temp, p, m.procs[p].text);
  }

  // ---------------------------------------------------------------------------------------
  // Undisturbed runs
  // ---------------------------------------------------------------------------------------

  /** Nothing is killed and every removal works. */
  predicate Neat(a: Step) {
    !a.Kill? && !a.PowerLoss? && (a.Unlink? ==> a.removed) && (a.RemoveTemp? ==> a.removed)
  }

  /** And nothing fails. */
  predicate Calm(a: Step) {
    Neat(a) && !a.Fail?
  }

  predicate AllNeat(steps: seq<Step>) {
    forall i | 0 <= i < |steps| :: Neat(steps[i])
  }

  predicate AllCalm(steps: seq<Step>) {
    forall i | 0 <= i < |steps| :: Calm(steps[i])
  }

  predicate CalmProc(s: Dir, p: nat) {
    p in s.procs ==>
      var pc := s.procs[p].pc;
      && !pc.Killed? && pc != Done(Failed)
      && (pc.Cleanup? ==> !pc.failed)
      && (pc.Cleanup? || pc == Done(Exists) ==> Dest in s.names)
      && (pc.Done? && pc.result == Created ==> Dest in s.names)
  }

  /** A temp name belongs to a call that is still under way. */
  predicate CalmTemp(s: Dir, k: nat) {
    Temp(k) in s.names ==>
      && k in s.inodes && s.inodes[k].owner in s.procs
      && var pc := s.procs[s.inodes[k].owner].pc; HasTemp(pc) && !pc.Published? && pc.temp == k
  }

  /** The winner's call has published. */
  predicate CalmWinner(s: Dir) {
    && (Dest in s.names ==> s.names[Dest].File?)
    && (s.winner.Won? ==> s.winner.proc in s.procs && Claims(s.procs[s.winner.proc].pc))
  }

  ghost predicate CalmInv(s: Dir) {
    CalmWinner(s) && forall n: nat :: CalmProc(s, n) && CalmTemp(s, n)
  }

  lemma CalmProcKept(s: Dir, a: Step, n: nat)
    requires Enabled(s, a) && Calm(a) && ProcOk(s, a.p) && OneWinner(s) && CalmProc(s, n) && CalmProc(s, a.p)
    ensures CalmProc(Do(s, a), n)
  {
    assert ClaimOk(s, a.p);
  }

  lemma CalmTempKept(s: Dir, a: Step, k: nat)
    requires Enabled(s, a) && Neat(a) && ProcOk(s, a.p) && CalmTemp(s, k)
    ensures CalmTemp(Do(s, a), k)
  {
  }

  lemma CalmWinnerKept(s: Dir, a: Step)
    requires Enabled(s, a) && Calm(a) && WinnerOk(s) && ClaimOk(s, a.p) && CalmWinner(s)
    ensures CalmWinner(Do(s, a))
  {
  }

  lemma CalmStep(s: Dir, a: Step)
    requires Inv(s) && OneWinner(s) && CalmInv(s) && Enabled(s, a) && Calm(a)
    ensures CalmInv(Do(s, a))
  {
    assert ProcOk(s, a.p) && CalmProc(s, a.p) && ClaimOk(s, a.p);
    CalmWinnerKept(s, a);
    forall n: nat ensures CalmProc(Do(s, a), n) && CalmTemp(Do(s, a), n) {
      CalmProcKept(s, a, n);
      CalmTempKept(s, a, n);
    }
  }

  lemma {:induction false} CalmRun(s: Dir, steps: seq<Step>)
    requires Inv(s) && OneWinner(s) && CalmInv(s) && IsRun(s, steps) && AllCalm(steps)
    ensures Inv(After(s, steps)) && OneWinner(After(s, steps)) && CalmInv(After(s, steps))
    decreases |steps|
  {
    if steps != [] {
      StepKeepsInv(s, steps[0]);
      StepKeepsWinner(s, steps[0]);
      CalmStep(s, steps[0]);
      CalmRun(Do(s, steps[0]), steps[1..]);
    }
  }

  lemma {:induction false} NeatRun(s: Dir, steps: seq<Step>)
    requires Inv(s) && (forall k: nat :: CalmTemp(s, k)) && IsRun(s, steps) && AllNeat(steps)
    ensures forall k: nat :: CalmTemp(After(s, steps), k)
    decreases |steps|
  {
    if steps != [] {
      StepKeepsInv(s, steps[0]);
      assert ProcOk(s, steps[0].p);
      forall k: nat ensures CalmTemp(Do(s, steps[0]), k) {
        CalmTempKept(s, steps[0], k);
      }
      NeatRun(Do(s, steps[0]), steps[1..]);
    }
  }

  /** Whatever fails: once all calls have returned, the path is the only name. */
  lemma NoTempIsLeft(s: Dir, steps: seq<Step>)
    requires Initial(s) && IsRun(s, steps) && AllNeat(steps)
    requires var ps := After(s, steps).procs; forall p | p in ps :: ps[p].pc.Done?
    ensures forall n | n in After(s, steps).names :: n == Dest
  {
    InitialInv(s);
    NeatRun(s, steps);
    forall k: nat ensures Temp(k) !in After(s, steps).names {
      assert CalmTemp(After(s, steps), k);
    }
  }

  /** With the path free at first and nothing disturbing the calls, once all have returned exactly
      one of them created the file, the rest found it there, and no temp file is left. */
  lemma ExactlyOneCreates(s: Dir, steps: seq<Step>)
    requires Initial(s) && Dest !in s.names && IsRun(s, steps) && AllCalm(steps)
    requires var ps := After(s, steps).procs; ps != map[] && forall p | p in ps :: ps[p].pc.Done?
    ensures var t := After(s, steps);
            && (forall n | n in t.names :: n == Dest)
            && exists p :: p in t.procs && t.procs[p].pc == Done(Created)
                           && forall q | q in t.procs && q != p :: t.procs[q].pc == Done(Exists)
  {
    InitialInv(s);
    CalmRun(s, steps);
    var t := After(s, steps);
    forall k: nat ensures Temp(k) !in t.names {
      assert CalmTemp(t, k);
    }
    var q :| q in t.procs;
    assert CalmProc(t, q) && ClaimOk(t, q);
    var p := t.winner.proc;
    assert t.procs[p].pc == Done(Created);
    forall r | r in t.procs && r != p ensures t.procs[r].pc == Done(Exists) {
      assert CalmProc(t, r) && ClaimOk(t, r);
    }
  }

  // ---------------------------------------------------------------------------------------
  // What a call answers
  // ---------------------------------------------------------------------------------------

  /** Whether the call has failed, for as long as it is not killed. */
  predicate FailOk(s: Dir, p: nat, failed: bool) {
    if p !in s.procs then !failed
    else
      var pc := s.procs[p].pc;
      pc.Killed? || (failed <==> pc == Done(Failed) || (pc.Cleanup? && pc.failed))
  }

  lemma StepKeepsFail(s: Dir, a: Step, p: nat, failed: bool)
    requires Enabled(s, a) && FailOk(s, p, failed)
    ensures FailOk(Do(s, a), p, failed || a == Fail(p))
  {
  }

  /** Over every run, crashes included: a call that returns reports failure if and only if one of its own
      steps failed. */
  lemma {:induction false} FailedIff(s: Dir, steps: seq<Step>, p: nat, failed: bool)
    requires IsRun(s, steps) && FailOk(s, p, failed)
    ensures FailOk(After(s, steps), p, failed || Fail(p) in steps)
    decreases |steps|
  {
    if steps != [] {
      StepKeepsFail(s, steps[0], p, failed);
      FailedIff(Do(s, steps[0]), steps[1..], p, failed || steps[0] == Fail(p));
      assert steps == [steps[0]] + steps[1..];
    }
  }

  /** The call has found the path taken. */
  predicate Finds(pc: Pc) {
    pc == Done(Exists) || (pc.Cleanup? && !pc.failed)
  }

  /** A call that found the path taken did not win it, and the path is taken. */
  predicate FoundOk(s: Dir, p: nat) {
    && (p in s.procs && Finds(s.procs[p].pc) ==> Dest in s.names)
    && (s.winner == Won(p) ==> p in s.procs && (Claims(s.procs[p].pc) || s.procs[p].pc.Killed?))
  }

  ghost predicate AllFound(s: Dir) {
    forall p: nat :: FoundOk(s, p)
  }

  lemma StepKeepsFound(s: Dir, a: Step, p: nat)
    requires Enabled(s, a) && !a.PowerLoss? && FoundOk(s, p) && ClaimOk(s, a.p)
    ensures FoundOk(Do(s, a), p)
  {
  }

  lemma {:induction false} RunKeepsFound(s: Dir, steps: seq<Step>)
    requires Inv(s) && OneWinner(s) && AllFound(s) && IsRun(s, steps) && Powered(steps)
    ensures AllFound(After(s, steps))
    decreases |steps|
  {
    if steps != [] {
      StepKeepsInv(s, steps[0]);
      StepKeepsWinner(s, steps[0]);
      forall p: nat ensures FoundOk(Do(s, steps[0]), p) {
        assert ClaimOk(s, steps[0].p) && FoundOk(s, p);
        StepKeepsFound(s, steps[0], p);
      }
      RunKeepsFound(Do(s, steps[0]), steps[1..]);
    }
  }

  /** The path holds the file of call `p`, with its whole text. */
  predicate Owns(s: Dir, p: nat) {
    && p in s.procs && Dest in s.names && s.names[Dest].File? && s.names[Dest].inode in s.inodes
    && s.inodes[s.names[Dest].inode].owner == p && s.inodes[s.names[Dest].inode].content == s.procs[p].text
  }

  /** While the power stays on, every answer is true: failed if and only if a step of the call failed;
      created if and only if the path holds its file; exists only if the path holds something else. */
  lemma AnswersAreTrue(s: Dir, steps: seq<Step>, p: nat)
    requires Initial(s) && IsRun(s, steps) && Powered(steps)
    requires p in After(s, steps).procs && After(s, steps).procs[p].pc.Done?
    ensures var t := After(s, steps);
            var r := t.procs[p].pc.result;
            && (r == Failed <==> Fail(p) in steps)
            && (r == Created <==> Owns(t, p))
            && (r == Exists ==> Dest in t.names)
  {
    InitialInv(s);
    RunKeepsWinner(s, steps);
    RunKeepsFound(s, steps);
    FailedIff(s, steps, p, false);
    var t := After(s, steps);
    assert ClaimOk(t, p) && FoundOk(t, p);
  }

  /** With the path taken at first, nothing is ever touched, no temp file is made, and every call that
      returns finds the path taken, unless its look at it failed. */
  lemma {:induction false} TakenStays(s: Dir, steps: seq<Step>, names: map<Name, Entry>)
    requires s.names == names && Dest in names && s.inodes == map[] && IsRun(s, steps) && Powered(steps)
    requires forall p | p in s.procs :: s.procs[p].pc in {Begun, Done(Exists), Done(Failed), Killed}
    ensures var t := After(s, steps);
            && t.names == names && t.inodes == map[]
            && forall p | p in t.procs :: t.procs[p].pc in {Begun, Done(Exists), Done(Failed), Killed}
    decreases |steps|
  {
    if steps != [] {
      TakenStays(Do(s, steps[0]), steps[1..], names);
    }
  }

  /** Undisturbed on a taken path, every call answers that it exists. */
  lemma AllFindIt(s: Dir, steps: seq<Step>, p: nat)
    requires Initial(s) && Dest in s.names && IsRun(s, steps) && AllCalm(steps)
    requires p in After(s, steps).procs && After(s, steps).procs[p].pc.Done?
    ensures After(s, steps).procs[p].pc == Done(Exists)
    ensures After(s, steps).names == s.names && After(s, steps).inodes == map[]
  {
    TakenStays(s, steps, s.names);
    FailedIff(s, steps, p, false);
  }

  // ---------------------------------------------------------------------------------------
  // One call by itself
  // ---------------------------------------------------------------------------------------

  /** What an undisturbed call does next; `k` is a file number nobody uses. */
  function NextStep(s: Dir, p: nat, k: nat): (a: Step)
    requires p in s.procs
  {
    match s.procs[p].pc
    case Begun => Lstat(p)
    case Checked => CreateTemp(p, k)
    case Writing(temp) =>
      var left := if temp in s.inodes then |s.procs[p].text| - |s.inodes[temp].content| else 0;
      if left > 0 then WriteSome(p, left) else WriteEnds(p)
    case Written(_) => Sync(p)
    case Synced(_) => Close(p)
    case Closed(_) => Link(p)
    case Linked(_) => Unlink(p, true)
    case Published(_) => SyncDir(p, true)
    case Cleanup(_, _) => RemoveTemp(p, true)
    case _ => Kill(p)
  }

  /** How many steps it still takes at most. */
  function Rank(s: Dir, p: nat): (n: nat)
    requires p in s.procs
  {
    match s.procs[p].pc
    case Begun => 9
    case Checked => 8
    case Writing(temp) => if temp in s.inodes && |s.inodes[temp].content| < |s.procs[p].text| then 7 else 6
    case Written(_) => 5
    case Synced(_) => 4
    case Closed(_) => 3
    case Linked(_) => 2
    case Published(_) => 1
    case Cleanup(_, _) => 1
    case _ => 0
  }

  /** At every point of every run a call that is under way can go on by itself, and is through after at most
      nine steps. */
  lemma NeverStuck(s: Dir, p: nat, k: nat)
    requires Inv(s) && At(s, p) && k !in s.inodes && Temp(k) !in s.names
    ensures Enabled(s, NextStep(s, p, k)) && !NextStep(s, p, k).Kill?
    ensures var t := Do(s, NextStep(s, p, k)); p in t.procs && Rank(t, p) < Rank(s, p) <= 9
    ensures Rank(s, p) == 1 ==> Do(s, NextStep(s, p, k)).procs[p].pc.Done?
  {
    assert ProcOk(s, p);
  }

  function WritingSteps(p: nat, n: nat): (steps: seq<Step>) {
    [WriteSome(p, n)] + ([WriteEnds(p)] + ([Sync(p)] + ([Close(p)] + [])))
  }

  /** The two ways to publish, and the sync of the directory. */
  function PublishingSteps(p: nat, byLink: bool, durable: bool): (steps: seq<Step>) {
    if byLink then [Link(p)] + ([Unlink(p, true)] + ([SyncDir(p, durable)] + []))
    else [RenameNoReplace(p)] + ([SyncDir(p, durable)] + [])
  }

  function WholeCall(p: nat, text: seq<int>, k: nat, byLink: bool, durable: bool): (steps: seq<Step>) {
    [Begin(p, text)] + ([Lstat(p)] + ([CreateTemp(p, k)] + WritingSteps(p, |text|)))
    + PublishingSteps(p, byLink, durable)
  }

  lemma RunOfOne(s: Dir, a: Step, rest: seq<Step>)
    requires Enabled(s, a) && IsRun(Do(s, a), rest)
    ensures IsRun(s, [a] + rest) && After(s, [a] + rest) == After(Do(s, a), rest)
  {
    assert ([a] + rest)[1..] == rest;
  }

  lemma {:induction false} RunConcat(s: Dir, a: seq<Step>, b: seq<Step>)
    requires IsRun(s, a) && IsRun(After(s, a), b)
    ensures IsRun(s, a + b) && After(s, a + b) == After(After(s, a), b)
    decreases |a|
  {
    if a == [] {
      assert a + b == b;
    } else {
      assert (a + b)[1..] == a[1..] + b;
      RunConcat(Do(s, a[0]), a[1..], b);
    }
  }

  /** The directory once the call has a closed temp file. */
  function Filled(s: Dir, p: nat, text: seq<int>, k: nat): (t: Dir) {
    s.(names := s.names[Temp(k) := File(k)], inodes := s.inodes[k := Inode(text, text, p)],
       procs := s.procs[p := Proc(text, Closed(k))])
  }

  lemma FillingRuns(s: Dir, p: nat, text: seq<int>, k: nat)
    requires p !in s.procs && k !in s.inodes && Temp(k) !in s.names && Dest !in s.names
    ensures var steps := [Begin(p, text)] + ([Lstat(p)] + ([CreateTemp(p, k)] + WritingSteps(p, |text|)));
            IsRun(s, steps) && After(s, steps) == Filled(s, p, text, k)
  {
    var s1 := Do(s, Begin(p, text));
    var s2 := Do(s1, Lstat(p));
    var s3 := Do(s2, CreateTemp(p, k));
    WritingRuns(s, s3, p, text, k);
    RunOfOne(s2, CreateTemp(p, k), WritingSteps(p, |text|));
    RunOfOne(s1, Lstat(p), [CreateTemp(p, k)] + WritingSteps(p, |text|));
    RunOfOne(s, Begin(p, text), [Lstat(p)] + ([CreateTemp(p, k)] + WritingSteps(p, |text|)));
  }

  lemma WritingRuns(s: Dir, s3: Dir, p: nat, text: seq<int>, k: nat)
    requires s3 == s.(names := s.names[Temp(k) := File(k)], inodes := s.inodes[k := Inode([], [], p)],
                      procs := s.procs[p := Proc(text, Writing(k))])
    ensures IsRun(s3, WritingSteps(p, |text|)) && After(s3, WritingSteps(p, |text|)) == Filled(s, p, text, k)
  {
    var s4 := Do(s3, WriteSome(p, |text|));
    assert text[..|text|] == text;
    var s5 := Do(s4, WriteEnds(p));
    SyncingRuns(s, s5, p, text, k);
    RunOfOne(s4, WriteEnds(p), [Sync(p)] + ([Close(p)] + []));
    RunOfOne(s3, WriteSome(p, |text|), [WriteEnds(p)] + ([Sync(p)] + ([Close(p)] + [])));
  }

  lemma SyncingRuns(s: Dir, m: Dir, p: nat, text: seq<int>, k: nat)
    requires m.names == s.names[Temp(k) := File(k)] && m.inodes == s.inodes[k := Inode(text, [], p)]
    requires m.procs == s.procs[p := Proc(text, Written(k))]
    requires m.winner == s.winner && m.entryDurable == s.entryDurable
    ensures var steps := [Sync(p)] + ([Close(p)] + []); IsRun(m, steps) && After(m, steps) == Filled(s, p, text, k)
  {
    var n := Do(m, Sync(p));
    RunOfOne(n, Close(p), []);
    RunOfOne(m, Sync(p), [Close(p)] + []);
  }

  /** The directory once the call has returned. */
  function Finished(s: Dir, p: nat, text: seq<int>, k: nat, durable: bool): (t: Dir) {
    s.(names := s.names[Dest := File(k)], inodes := s.inodes[k := Inode(text, text, p)],
       procs := s.procs[p := Proc(text, Done(Created))], winner := Won(p), entryDurable := s.entryDurable || durable)
  }

  lemma SyncDirRuns(s: Dir, m: Dir, p: nat, text: seq<int>, k: nat, durable: bool)
    requires m == Finished(s, p, text, k, false).(procs := s.procs[p := Proc(text, Published(k))])
    ensures IsRun(m, [SyncDir(p, durable)] + [])
    ensures After(m, [SyncDir(p, durable)] + []) == Finished(s, p, text, k, durable)
  {
    RunOfOne(m, SyncDir(p, durable), []);
  }

  lemma PublishingRuns(s: Dir, m: Dir, p: nat, text: seq<int>, k: nat, byLink: bool, durable: bool)
    requires Temp(k) !in s.names && Dest !in s.names && m == Filled(s, p, text, k)
    ensures var steps := PublishingSteps(p, byLink, durable);
            IsRun(m, steps) && After(m, steps) == Finished(s, p, text, k, durable)
  {
    if byLink {
      var m1 := Do(m, Link(p));
      var m2 := Do(m1, Unlink(p, true));
      assert m2.names == s.names[Dest := File(k)];
      SyncDirRuns(s, m2, p, text, k, durable);
      RunOfOne(m1, Unlink(p, true), [SyncDir(p, durable)] + []);
      RunOfOne(m, Link(p), [Unlink(p, true)] + ([SyncDir(p, durable)] + []));
    } else {
      var m1 := Do(m, RenameNoReplace(p));
      assert m1.names == s.names[Dest := File(k)];
      SyncDirRuns(s, m1, p, text, k, durable);
      RunOfOne(m, RenameNoReplace(p), [SyncDir(p, durable)] + []);
    }
  }

  /** A call that runs by itself on a free path creates the file with its text, by link or by rename, leaves
      no other name behind, and says so. Its entry outlives a power loss if the directory was synced, and
      need not if that failed. */
  lemma OneCallCreates(s: Dir, p: nat, text: seq<int>, k: nat, byLink: bool, durable: bool)
    requires p !in s.procs && k !in s.inodes && Temp(k) !in s.names && Dest !in s.names && !s.entryDurable
    ensures var steps := WholeCall(p, text, k, byLink, durable);
            && IsRun(s, steps)
            && var t := After(s, steps);
               && t.procs == s.procs[p := Proc(text, Done(Created))]
               && t.names == s.names[Dest := File(k)] && t.inodes == s.inodes[k := Inode(text, text, p)]
               && (durable <==> !Enabled(t, PowerLoss({})))
  {
    var m := Filled(s, p, text, k);
    FillingRuns(s, p, text, k);
    PublishingRuns(s, m, p, text, k, byLink, durable);
    RunConcat(s, [Begin(p, text)] + ([Lstat(p)] + ([CreateTemp(p, k)] + WritingSteps(p, |text|))),
              PublishingSteps(p, byLink, durable));
  }

  /** A power loss takes what was not synced: a temp file written but not synced is empty afterwards. */
  lemma UnsyncedIsLost(s: Dir, p: nat, k: nat, kept: set<Name>)
    requires Inv(s) && p in s.procs && s.procs[p].pc == Written(k) && k in s.inodes && s.inodes[k].durable == []
    requires Enabled(s, PowerLoss(kept))
    ensures var t := Do(s, PowerLoss(kept)); k in t.inodes && t.inodes[k].content == [] && t.procs[p].pc.Killed?
  {
    assert ProcOk(s, p);
  }

  // ---------------------------------------------------------------------------------------
  // Both publishes are the same atomic step
  // ---------------------------------------------------------------------------------------

  /** What a reader of the path sees. */
  datatype Seen = Nothing | Something | Text(text: seq<int>)

  function Path(s: Dir): (v: Seen) {
    if Dest !in s.names then Nothing
    else if s.names[Dest].File? && s.names[Dest].inode in s.inodes then Text(s.inodes[s.names[Dest].inode].content)
    else Something
  }

  /** The atomic step: install `text` if nothing is there, else change nothing. */
  function Install(v: Seen, text: seq<int>): (r: Seen) {
    if v == Nothing then Text(text) else v
  }

  /** Rename-without-replace and link each install the caller's text in one step, and every other
      step, the unlink that follows a link included, leaves the path as it was. */
  lemma PublishRefinesInstall(s: Dir, a: Step)
    requires Inv(s) && Enabled(s, a) && !a.PowerLoss?
    ensures Path(Do(s, a)) == if a.RenameNoReplace? || a.Link? then Install(Path(s), s.procs[a.p].text) else Path(s)
  {
    assert ProcOk(s, a.p);
  }
}
