/**
 Invite, revoke and `invite show` over two files, the config and the invite receipt, with a crash
 possible between any two file operations.

 The receipt is written before the pairing, and removed after it. Config and receipt writes are
 atomic; restoring a snapshot is not: it truncates the file first, so a crash can leave it torn.
 */
module Pairing {

  type Id = nat
  type Token = nat

  /** The config: its pairings, and everything else the same write touches. */
  datatype Config = Parsed(pairings: map<Id, Token>, other: int) | Torn

  /** A receipt: the code that carries a pairing's token. */
  datatype Receipt = Code(token: Token) | TornReceipt

  datatype Files = Files(config: Config, receipts: map<Id, Receipt>)

  /** How far the one running command has come; `snap` is what it saw at its start. */
  datatype Op =
    | Idle
    | InviteStarted(id: Id, token: Token, force: bool, snap: Files)
    | ReceiptWritten(id: Id, token: Token, force: bool, snap: Files)
    | PairingWritten(id: Id, token: Token, snap: Files)
    | ConfigTruncated(id: Id, token: Token, snap: Files)
    | ReceiptToUndo(id: Id, token: Token, snap: Files)
    | ReceiptTruncated(id: Id, token: Token, snap: Files)
    | RevokeStarted(id: Id, snap: Files)
    | NotFound(id: Id, snap: Files)
    | Revoked(id: Id, snap: Files)
    | RevokeTruncated(id: Id, snap: Files)
    | RevokeReloaded(id: Id, snap: Files)

  datatype Last = Fresh | Invited(id: Id, token: Token) | RolledBack | Other

  /** `begun` is what the last command found when it started, `last` what it has reported. */
  datatype State = State(files: Files, op: Op, begun: Files, last: Last)

  datatype Step =
    | BeginInvite(id: Id, token: Token, force: bool)
    | WriteReceipt(ok: bool)
    | WritePairing(ok: bool, other: int)
    | ReloadInvite(ok: bool)
    | FinishConfigUndo
    | UndoReceipt
    | FinishReceiptUndo
    | BeginRevoke(id: Id)
    | RevokePairing(ok: bool, other: int)
    | ReloadRevoke(ok: bool)
    | FinishRevokeUndo
    | RemoveReceipt(ok: bool)
    | RestoreFails
    | Crash

  predicate Enabled(s: State, a: Step) {
    match a
    case BeginInvite(_, _, _) => s.op == Idle && s.files.config.Parsed?
    case WriteReceipt(_) => s.op.InviteStarted?
    case WritePairing(_, _) => s.op.ReceiptWritten?
    case ReloadInvite(_) => s.op.PairingWritten?
    case FinishConfigUndo => s.op.ConfigTruncated?
    case UndoReceipt => s.op.ReceiptToUndo?
    case FinishReceiptUndo => s.op.ReceiptTruncated? && s.op.id in s.op.snap.receipts
    case BeginRevoke(_) => s.op == Idle
    case RevokePairing(_, _) => s.op.RevokeStarted?
    case ReloadRevoke(_) => s.op.Revoked?
    case FinishRevokeUndo => s.op.RevokeTruncated?
    case RemoveReceipt(_) => s.op.NotFound? || s.op.RevokeReloaded?
    case RestoreFails =>
      s.op.ConfigTruncated? || s.op.ReceiptToUndo? || s.op.ReceiptTruncated? || s.op.RevokeTruncated?
    case Crash => true
  }

  function Do(s: State, a: Step): (r: State)
    requires Enabled(s, a)
  {
    var f := s.files;
    match a
    case BeginInvite(id, token, force) => s.(op := InviteStarted(id, token, force, f), begun := f, last := Fresh)
    case WriteReceipt(ok) =>
      if ok then
        s.(files := f.(receipts := f.receipts[s.op.id := Code(s.op.token)]),
           op := ReceiptWritten(s.op.id, s.op.token, s.op.force, s.op.snap))
      else s.(op := Idle, last := Other)
    case WritePairing(ok, other) =>
      // refused for an unreadable config, and for a present id without force
      if ok && f.config.Parsed? && (s.op.id !in f.config.pairings || s.op.force) then
        s.(files := f.(config := Parsed(f.config.pairings[s.op.id := s.op.token], other)),
           op := PairingWritten(s.op.id, s.op.token, s.op.snap))
      else s.(op := ReceiptToUndo(s.op.id, s.op.token, s.op.snap))
    case ReloadInvite(ok) =>
      if ok then s.(op := Idle, last := Invited(s.op.id, s.op.token))
      else s.(files := f.(config := Torn), op := ConfigTruncated(s.op.id, s.op.token, s.op.snap))
    case FinishConfigUndo =>
      s.(files := f.(config := s.op.snap.config), op := ReceiptToUndo(s.op.id, s.op.token, s.op.snap))
    case UndoReceipt =>
      if s.op.id in s.op.snap.receipts then
        s.(files := f.(receipts := f.receipts[s.op.id := TornReceipt]),
           op := ReceiptTruncated(s.op.id, s.op.token, s.op.snap))
      else s.(files := f.(receipts := f.receipts - {s.op.id}), op := Idle, last := RolledBack)
    case FinishReceiptUndo =>
      s.(files := f.(receipts := f.receipts[s.op.id := s.op.snap.receipts[s.op.id]]), op := Idle, last := RolledBack)
    case BeginRevoke(id) => s.(op := RevokeStarted(id, f), begun := f, last := Fresh)
    case RevokePairing(ok, other) =>
      if !ok || !f.config.Parsed? then s.(op := Idle, last := Other)
      else if s.op.id !in f.config.pairings then s.(op := NotFound(s.op.id, s.op.snap))
      else
        s.(files := f.(config := Parsed(f.config.pairings - {s.op.id}, other)), op := Revoked(s.op.id, s.op.snap))
    case ReloadRevoke(ok) =>
      if ok then s.(op := RevokeReloaded(s.op.id, s.op.snap))
      else s.(files := f.(config := Torn), op := RevokeTruncated(s.op.id, s.op.snap))
    case FinishRevokeUndo =>
      s.(files := f.(config := s.op.snap.config), op := Idle, last := RolledBack)
    case RemoveReceipt(ok) =>
      s.(files := if ok then f.(receipts := f.receipts - {s.op.id}) else f, op := Idle, last := Other)
    case RestoreFails => s.(op := Idle, last := Other)
    case Crash => s.(op := Idle, last := Other)
  }

  // ---------------------------------------------------------------------------------------
  // Agreement
  // ---------------------------------------------------------------------------------------

  /** Where an id has both a pairing and a readable receipt, they carry the same token. */
  predicate Agree(f: Files) {
    f.config.Parsed? ==>
      forall id | id in f.config.pairings && id in f.receipts && f.receipts[id].Code? ::
        f.receipts[id].token == f.config.pairings[id]
  }

  /** The caller's condition: the id is not paired yet, or is paired with this very token. */
  predicate Fitting(f: Files, id: Id, token: Token) {
    f.config.Parsed? && id in f.config.pairings ==> f.config.pairings[id] == token
  }

  /** What the two files hold at each point of a command, in terms of what it started from. */
  predicate Consistent(s: State) {
    var f := s.files;
    match s.op
    case Idle => true
    case InviteStarted(id, token, _, snap) => f == snap && Fitting(snap, id, token)
    case ReceiptWritten(id, token, _, snap) =>
      f == snap.(receipts := snap.receipts[id := Code(token)]) && Fitting(snap, id, token)
    case PairingWritten(id, token, snap) =>
      && snap.config.Parsed? && f.config.Parsed? && Fitting(snap, id, token)
      && f.config.pairings == snap.config.pairings[id := token]
      && f.receipts == snap.receipts[id := Code(token)]
    case ConfigTruncated(id, token, snap) =>
      f == Files(Torn, snap.receipts[id := Code(token)]) && Fitting(snap, id, token)
    case ReceiptToUndo(id, token, snap) =>
      f == snap.(receipts := snap.receipts[id := Code(token)]) && Fitting(snap, id, token)
    case ReceiptTruncated(id, token, snap) =>
      f == snap.(receipts := snap.receipts[id := TornReceipt]) && Fitting(snap, id, token)
    case RevokeStarted(id, snap) => f == snap
    case NotFound(id, snap) => f == snap && f.config.Parsed? && id !in f.config.pairings
    case Revoked(id, snap) => RevokedFiles(f, snap, id)
    case RevokeTruncated(id, snap) => f == snap.(config := Torn)
    case RevokeReloaded(id, snap) => RevokedFiles(f, snap, id)
  }

  predicate RevokedFiles(f: Files, snap: Files, id: Id) {
    && snap.config.Parsed? && f.config.Parsed?
    && f.config.pairings == snap.config.pairings - {id} && f.receipts == snap.receipts
  }

  predicate Inv(s: State) {
    && Agree(s.files) && Consistent(s)
    && (s.op != Idle ==> s.begun == s.op.snap && Agree(s.op.snap))
  }

  /** Every invite names an id that is not paired with another token. */
  predicate Polite(s: State, a: Step) {
    a.BeginInvite? ==> Fitting(s.files, a.id, a.token)
  }

  lemma InviteStep(s: State, a: Step)
    requires Inv(s) && Enabled(s, a) && Polite(s, a)
    requires a.BeginInvite? || a.WriteReceipt? || a.WritePairing? || a.ReloadInvite? || a.FinishConfigUndo?
    ensures Inv(Do(s, a))
  {
  }

  lemma UndoStep(s: State, a: Step)
    requires Inv(s) && Enabled(s, a) && (a.UndoReceipt? || a.FinishReceiptUndo? || a.RestoreFails? || a.Crash?)
    ensures Inv(Do(s, a))
  {
    if a.UndoReceipt? && s.op.id !in s.op.snap.receipts {
      assert s.op.snap.receipts[s.op.id := Code(s.op.token)] - {s.op.id} == s.op.snap.receipts;
    } else if a.FinishReceiptUndo? {
      var rs, id := s.op.snap.receipts, s.op.id;
      assert rs[id := TornReceipt][id := rs[id]] == rs;
    }
  }

  lemma RevokeStep(s: State, a: Step)
    requires Inv(s) && Enabled(s, a)
    requires a.BeginRevoke? || a.RevokePairing? || a.ReloadRevoke? || a.FinishRevokeUndo? || a.RemoveReceipt?
    ensures Inv(Do(s, a))
  {
  }

  lemma StepKeepsInv(s: State, a: Step)
    requires Inv(s) && Enabled(s, a) && Polite(s, a)
    ensures Inv(Do(s, a))
  {
    match a
    case BeginInvite(_, _, _) => InviteStep(s, a);
    case WriteReceipt(_) => InviteStep(s, a);
    case WritePairing(_, _) => InviteStep(s, a);
    case ReloadInvite(_) => InviteStep(s, a);
    case FinishConfigUndo => InviteStep(s, a);
    case UndoReceipt => UndoStep(s, a);
    case FinishReceiptUndo => UndoStep(s, a);
    case RestoreFails => UndoStep(s, a);
    case Crash => UndoStep(s, a);
    case _ => RevokeStep(s, a);
  }

  // ---------------------------------------------------------------------------------------
  // Runs
  // ---------------------------------------------------------------------------------------

  predicate IsRun(s: State, steps: seq<Step>)
    decreases |steps|
  {
    steps == [] || (Enabled(s, steps[0]) && IsRun(Do(s, steps[0]), steps[1..]))
  }

  function After(s: State, steps: seq<Step>): (t: State)
    requires IsRun(s, steps)
    decreases |steps|
  {
    if steps == [] then s else After(Do(s, steps[0]), steps[1..])
  }

  predicate PoliteRun(s: State, steps: seq<Step>)
    requires IsRun(s, steps)
    decreases |steps|
  {
    steps == [] || (Polite(s, steps[0]) && PoliteRun(Do(s, steps[0]), steps[1..]))
  }

  lemma {:induction false} RunKeepsInv(s: State, steps: seq<Step>)
    requires Inv(s) && IsRun(s, steps) && PoliteRun(s, steps)
    ensures Inv(After(s, steps))
    decreases |steps|
  {
    if steps != [] {
      StepKeepsInv(s, steps[0]);
      RunKeepsInv(Do(s, steps[0]), steps[1..]);
    }
  }

  predicate Initial(s: State) {
    s.op == Idle && s.last == Fresh && Agree(s.files)
  }

  // ---------------------------------------------------------------------------------------
  // `invite show`
  // ---------------------------------------------------------------------------------------

  datatype Shown = Printed(token: Token) | Refused

  /** Prints the stored code, but only of an id the config still pairs. */
  function InviteShow(f: Files, id: Id, expired: bool): (r: Shown) {
    if id !in f.receipts || f.receipts[id].TornReceipt? then Refused
    else if f.config.Torn? || id !in f.config.pairings then Refused
    else if expired then Refused
    else Printed(f.receipts[id].token)
  }

  /** At every point of every run, crashes included, a code that `invite show` prints is the code
      of a pairing the config holds. */
  lemma ShowPrintsCommittedCode(s: State, steps: seq<Step>, id: Id, expired: bool)
    requires Initial(s) && IsRun(s, steps) && PoliteRun(s, steps)
    ensures var f := After(s, steps).files;
            InviteShow(f, id, expired).Printed? ==>
              && !expired && f.config.Parsed? && id in f.config.pairings
              && InviteShow(f, id, expired).token == f.config.pairings[id]
  {
    RunKeepsInv(s, steps);
  }

  /** Where a rollback has come, in terms of what the command started from: nothing is said of tokens. */
  predicate Undoing(s: State) {
    var f := s.files;
    match s.op
    case Idle => s.last == RolledBack ==> f == s.begun
    case InviteStarted(id, token, _, snap) => f == snap && s.begun == snap
    case ReceiptWritten(id, token, _, snap) =>
      f == snap.(receipts := snap.receipts[id := Code(token)]) && s.begun == snap
    case PairingWritten(id, token, snap) => f.receipts == snap.receipts[id := Code(token)] && s.begun == snap
    case ConfigTruncated(id, token, snap) => f.receipts == snap.receipts[id := Code(token)] && s.begun == snap
    case ReceiptToUndo(id, token, snap) => f == snap.(receipts := snap.receipts[id := Code(token)]) && s.begun == snap
    case ReceiptTruncated(id, token, snap) =>
      f == snap.(receipts := snap.receipts[id := TornReceipt]) && s.begun == snap
    case RevokeStarted(id, snap) => f == snap && s.begun == snap
    case NotFound(id, snap) => s.begun == snap
    case Revoked(id, snap) => f.receipts == snap.receipts && s.begun == snap
    case RevokeTruncated(id, snap) => f.receipts == snap.receipts && s.begun == snap
    case RevokeReloaded(id, snap) => s.begun == snap
  }

  lemma StepKeepsUndoing(s: State, a: Step)
    requires Undoing(s) && Enabled(s, a)
    ensures Undoing(Do(s, a))
  {
    if a.UndoReceipt? && s.op.id !in s.op.snap.receipts {
      assert s.op.snap.receipts[s.op.id := Code(s.op.token)] - {s.op.id} == s.op.snap.receipts;
    } else if a.FinishReceiptUndo? {
      var rs, id := s.op.snap.receipts, s.op.id;
      assert rs[id := TornReceipt][id := rs[id]] == rs;
    }
  }

  lemma {:induction false} RunKeepsUndoing(s: State, steps: seq<Step>)
    requires Undoing(s) && IsRun(s, steps)
    ensures Undoing(After(s, steps))
    decreases |steps|
  {
    if steps != [] {
      StepKeepsUndoing(s, steps[0]);
      RunKeepsUndoing(Do(s, steps[0]), steps[1..]);
    }
  }

  /** Over every run, whatever the ids and tokens, an invite of a paired id and a failing forced one
      included: a command that reports a completed rollback left both files as it found them. */
  lemma RollbackRestores(s: State, steps: seq<Step>)
    requires s.op == Idle && s.last == Fresh && IsRun(s, steps)
    ensures var t := After(s, steps); t.op == Idle && t.last == RolledBack ==> t.files == t.begun
  {
    RunKeepsUndoing(s, steps);
  }

  /** Revoking an id that is not paired clears whatever receipt is left for it, so nothing can be
      shown for it any more. */
  lemma RevokeClearsOrphan(s: State, id: Id, other: int, expired: bool)
    requires s.op == Idle && s.files.config.Parsed? && id !in s.files.config.pairings
    ensures var steps := [BeginRevoke(id), RevokePairing(true, other), RemoveReceipt(true)];
            && IsRun(s, steps)
            && var t := After(s, steps);
               t.op == Idle && id !in t.files.receipts && t.files.config == s.files.config
               && InviteShow(t.files, id, expired) == Refused
  {
    var steps := [BeginRevoke(id), RevokePairing(true, other), RemoveReceipt(true)];
    var s1 := Do(s, steps[0]);
    var s2 := Do(s1, steps[1]);
    var s3 := Do(s2, steps[2]);
    assert steps[1..] == [steps[1], steps[2]] && [steps[1], steps[2]][1..] == [steps[2]] && [steps[2]][1..] == [];
    assert IsRun(s2, [steps[2]]) && After(s2, [steps[2]]) == s3;
    assert IsRun(s1, [steps[1], steps[2]]) && After(s1, [steps[1], steps[2]]) == s3;
  }

  lemma RunOfOne(s: State, a: Step, rest: seq<Step>)
    requires Enabled(s, a) && IsRun(Do(s, a), rest)
    ensures IsRun(s, [a] + rest) && After(s, [a] + rest) == After(Do(s, a), rest)
  {
    assert ([a] + rest)[1..] == rest;
  }

  /** An undisturbed invite of an unpaired id, or a forced one, commits: the config pairs the id with the token, no
      other pairing changes, and `invite show` prints that token's code until it expires. */
  lemma InviteCommits(s: State, id: Id, token: Token, force: bool, other: int)
    requires s.op == Idle && s.files.config.Parsed? && (id !in s.files.config.pairings || force)
    ensures var steps := [BeginInvite(id, token, force)] + ([WriteReceipt(true)] + ([WritePairing(true,
        other)] + ([ReloadInvite(true)] + [])));
            && IsRun(s, steps)
            && var t := After(s, steps);
               && t.op == Idle && t.last == Invited(id, token)
               && t.files.config == Parsed(s.files.config.pairings[id := token], other)
               && t.files.receipts == s.files.receipts[id := Code(token)]
               && InviteShow(t.files, id, false) == Printed(token) && InviteShow(t.files, id, true) == Refused
  {
    var s1 := Do(s, BeginInvite(id, token, force));
    var s2 := Do(s1, WriteReceipt(true));
    var s3 := Do(s2, WritePairing(true, other));
    RunOfOne(s3, ReloadInvite(true), []);
    RunOfOne(s2, WritePairing(true, other), [ReloadInvite(true)] + []);
    RunOfOne(s1, WriteReceipt(true), [WritePairing(true, other)] + ([ReloadInvite(true)] + []));
    RunOfOne(s, BeginInvite(id, token, force), [WriteReceipt(true)] + ([WritePairing(true,
        other)] + ([ReloadInvite(true)] + [])));
  }

  /** An undisturbed invite of a paired id is refused without force, and both files are as they were. */
  lemma InviteIsRefused(s: State, id: Id, token: Token, other: int)
    requires s.op == Idle && s.files.config.Parsed? && id in s.files.config.pairings
    ensures var undo := [UndoReceipt] + if id in s.files.receipts then [FinishReceiptUndo] + [] else [];
            var rest := [WriteReceipt(true)] + ([WritePairing(true, other)] + undo);
            var steps := [BeginInvite(id, token, false)] + rest;
            && IsRun(s, steps)
            && After(s, steps).op == Idle && After(s, steps).last == RolledBack && After(s, steps).files == s.files
  {
    var undo := [UndoReceipt] + if id in s.files.receipts then [FinishReceiptUndo] + [] else [];
    var s1 := Do(s, BeginInvite(id, token, false));
    var s2 := Do(s1, WriteReceipt(true));
    var s3 := Do(s2, WritePairing(true, other));
    var rs := s.files.receipts;
    var s4 := Do(s3, UndoReceipt);
    if id in rs {
      assert rs[id := Code(token)][id := TornReceipt][id := rs[id]] == rs;
      RunOfOne(s4, FinishReceiptUndo, []);
    } else {
      assert rs[id := Code(token)] - {id} == rs;
    }
    RunOfOne(s3, UndoReceipt, undo[1..]);
    RunOfOne(s2, WritePairing(true, other), undo);
    RunOfOne(s1, WriteReceipt(true), [WritePairing(true, other)] + undo);
    RunOfOne(s, BeginInvite(id, token, false), [WriteReceipt(true)] + ([WritePairing(true, other)] + undo));
  }

  /** An undisturbed revoke of a paired id removes its pairing and its receipt, and no other. */
  lemma RevokeCommits(s: State, id: Id, other: int)
    requires s.op == Idle && s.files.config.Parsed? && id in s.files.config.pairings
    ensures var steps := [BeginRevoke(id)] + ([RevokePairing(true,
        other)] + ([ReloadRevoke(true)] + ([RemoveReceipt(true)] + [])));
            && IsRun(s, steps)
            && var t := After(s, steps);
               t.op == Idle && t.files == Files(Parsed(s.files.config.pairings - {id}, other), s.files.receipts - {id})
  {
    var s1 := Do(s, BeginRevoke(id));
    var s2 := Do(s1, RevokePairing(true, other));
    var s3 := Do(s2, ReloadRevoke(true));
    RunOfOne(s3, RemoveReceipt(true), []);
    RunOfOne(s2, ReloadRevoke(true), [RemoveReceipt(true)] + []);
    RunOfOne(s1, RevokePairing(true, other), [ReloadRevoke(true)] + ([RemoveReceipt(true)] + []));
    RunOfOne(s, BeginRevoke(id), [RevokePairing(true, other)] + ([ReloadRevoke(true)] + ([RemoveReceipt(true)] + [])));
  }

  // ---------------------------------------------------------------------------------------
  // One command from its start to its end
  // ---------------------------------------------------------------------------------------

  /** The steps of one command and of whatever may befall it. */
  predicate OneCommand(steps: seq<Step>) {
    forall i | 0 <= i < |steps| :: !steps[i].BeginInvite? && !steps[i].BeginRevoke?
  }

  /** The process lives, and what it restores it restores whole. */
  predicate Undisturbed(steps: seq<Step>) {
    forall i | 0 <= i < |steps| :: steps[i] != Crash && steps[i] != RestoreFails
  }

  /** An invite without force of an id that `config` pairs, or what is left of it. */
  predicate Refusing(s: State, config: Config, id: Id) {
    && s.files.config == config && config.Parsed? && id in config.pairings
    && match s.op
       case Idle => !s.last.Invited?
       case InviteStarted(i, _, force, snap) => i == id && !force && !s.last.Invited?
       case ReceiptWritten(i, _, force, snap) => i == id && !force && !s.last.Invited?
       case ReceiptToUndo(_, _, _) => !s.last.Invited?
       case ReceiptTruncated(_, _, _) => !s.last.Invited?
       case _ => false
  }

  lemma {:induction false} RunKeepsRefusing(s: State, steps: seq<Step>, config: Config, id: Id)
    requires Refusing(s, config, id) && IsRun(s, steps) && OneCommand(steps)
    ensures Refusing(After(s, steps), config, id)
    decreases |steps|
  {
    if steps != [] {
      RunKeepsRefusing(Do(s, steps[0]), steps[1..], config, id);
    }
  }

  /** Whatever fails or crashes, an invite without force never touches the config of an id that is paired, and
      never says that it invited. */
  lemma PairedIsNotReplaced(s: State, id: Id, token: Token, steps: seq<Step>)
    requires s.op == Idle && s.files.config.Parsed? && id in s.files.config.pairings
    requires IsRun(Do(s, BeginInvite(id, token, false)), steps) && OneCommand(steps)
    ensures var t := After(Do(s, BeginInvite(id, token, false)), steps);
            t.files.config == s.files.config && !t.last.Invited?
  {
    RunKeepsRefusing(Do(s, BeginInvite(id, token, false)), steps, s.files.config, id);
  }

  /** How far an invite that began on `f` has come. */
  predicate Inviting(s: State, f: Files, id: Id, token: Token, force: bool) {
    && f.config.Parsed?
    && match s.op
       case Idle => (s.files == f && !s.last.Invited?) || HasInvited(s, f, id, token, force)
       case InviteStarted(i, t, fo, snap) => (i, t, fo, snap) == (id, token, force, f) && s.files == f
       case ReceiptWritten(i, t, fo, snap) =>
         (i, t, fo, snap) == (id, token, force, f) && s.files == f.(receipts := f.receipts[id := Code(token)])
       case PairingWritten(i, t, snap) => (i, t, snap) == (id, token, f) && NowPairs(s.files, f, id, token, force)
       case ConfigTruncated(i, t, snap) =>
         (i, t, snap) == (id, token, f) && s.files == Files(Torn, f.receipts[id := Code(token)])
       case ReceiptToUndo(i, t, snap) =>
         (i, t, snap) == (id, token, f) && s.files == f.(receipts := f.receipts[id := Code(token)])
       case ReceiptTruncated(i, t, snap) =>
         (i, t, snap) == (id, token, f) && s.files == f.(receipts := f.receipts[id := TornReceipt])
       case _ => false
  }

  /** Both files hold the new pairing, and were allowed to. */
  predicate NowPairs(g: Files, f: Files, id: Id, token: Token, force: bool)
    requires f.config.Parsed?
  {
    && (id !in f.config.pairings || force)
    && g.config.Parsed? && g.config.pairings == f.config.pairings[id := token]
    && g.receipts == f.receipts[id := Code(token)]
  }

  predicate HasInvited(s: State, f: Files, id: Id, token: Token, force: bool)
    requires f.config.Parsed?
  {
    s.last == Invited(id, token) && NowPairs(s.files, f, id, token, force)
  }

  lemma StepKeepsInviting(s: State, a: Step, f: Files, id: Id, token: Token, force: bool)
    requires Inviting(s, f, id, token, force) && s.op != Idle && !s.last.Invited? && Enabled(s, a)
    requires a != Crash && a != RestoreFails && !a.BeginInvite? && !a.BeginRevoke?
    ensures var t := Do(s, a); Inviting(t, f, id, token, force) && (t.op != Idle ==> !t.last.Invited?)
  {
    if a.UndoReceipt? && id !in f.receipts {
      assert f.receipts[id := Code(token)] - {id} == f.receipts;
    } else if a.FinishReceiptUndo? {
      assert f.receipts[id := TornReceipt][id := f.receipts[id]] == f.receipts;
    }
  }

  lemma {:induction false} RunKeepsInviting(s: State, steps: seq<Step>, f: Files, id: Id, token: Token, force: bool)
    requires Inviting(s, f, id, token, force) && (s.op != Idle ==> !s.last.Invited?)
    requires IsRun(s, steps) && OneCommand(steps) && Undisturbed(steps)
    ensures Inviting(After(s, steps), f, id, token, force)
    decreases |steps|
  {
    if steps != [] {
      StepKeepsInviting(s, steps[0], f, id, token, force);
      RunKeepsInviting(Do(s, steps[0]), steps[1..], f, id, token, force);
    }
  }

  /** An invite is all or nothing: whichever of its writes and reloads fail, if its restores are whole it ends
      with the id paired in both files, which an id paired before needs force for, or with both files as they
      were. */
  lemma InviteIsAllOrNothing(s: State, id: Id, token: Token, force: bool, steps: seq<Step>)
    requires s.op == Idle && s.files.config.Parsed?
    requires IsRun(Do(s, BeginInvite(id, token, force)), steps) && OneCommand(steps) && Undisturbed(steps)
    requires After(Do(s, BeginInvite(id, token, force)), steps).op == Idle
    ensures var t := After(Do(s, BeginInvite(id, token, force)), steps);
            if t.last == Invited(id, token) then NowPairs(t.files, s.files, id, token, force) else t.files == s.files
  {
    RunKeepsInviting(Do(s, BeginInvite(id, token, force)), steps, s.files, id, token, force);
  }

  /** How far a revoke that began on `f` has come; `up` and `down` say whether its reload has worked or
      failed. */
  predicate Revoking(s: State, f: Files, id: Id, up: bool, down: bool) {
    match s.op
    case Idle => if up then NowRevoked(s.files, f, id) else s.files == f || (!down && NowRevoked(s.files, f, id))
    case RevokeStarted(i, snap) => i == id && snap == f && s.files == f && !up && !down
    case NotFound(i, snap) =>
      i == id && s.files == f && f.config.Parsed? && id !in f.config.pairings && !up && !down
    case Revoked(i, snap) => i == id && snap == f && RevokedFiles(s.files, f, id) && !up && !down
    case RevokeTruncated(i, snap) => i == id && snap == f && s.files == f.(config := Torn) && !up && down
    case RevokeReloaded(i, snap) => i == id && RevokedFiles(s.files, f, id) && up && !down
    case _ => false
  }

  /** The id is not paired any more, every other pairing and receipt is as it was, and the id's own receipt
      was removed or could not be. */
  predicate NowRevoked(g: Files, f: Files, id: Id) {
    && f.config.Parsed? && g.config.Parsed? && g.config.pairings == f.config.pairings - {id}
    && (g.receipts == f.receipts - {id} || g.receipts == f.receipts)
  }

  lemma StepKeepsRevoking(s: State, a: Step, f: Files, id: Id, up: bool, down: bool)
    requires Revoking(s, f, id, up, down) && s.op != Idle && Enabled(s, a)
    requires a != Crash && a != RestoreFails && !a.BeginInvite? && !a.BeginRevoke?
    ensures Revoking(Do(s, a), f, id, up || a == ReloadRevoke(true), down || a == ReloadRevoke(false))
  {
    if s.op.NotFound? {
      assert f.config.pairings - {id} == f.config.pairings;
    }
  }

  lemma {:induction false} RunKeepsRevoking(s: State, steps: seq<Step>, f: Files, id: Id, up: bool, down: bool)
    requires Revoking(s, f, id, up, down) && IsRun(s, steps) && OneCommand(steps) && Undisturbed(steps)
    ensures Revoking(After(s, steps), f, id, up || ReloadRevoke(true) in steps, down || ReloadRevoke(false) in steps)
    decreases |steps|
  {
    if steps != [] {
      StepKeepsRevoking(s, steps[0], f, id, up, down);
      RunKeepsRevoking(Do(s, steps[0]), steps[1..], f, id, up || steps[0] == ReloadRevoke(true),
                       down || steps[0] == ReloadRevoke(false));
      assert steps == [steps[0]] + steps[1..];
    }
  }

  /** So is a revoke, except that it leaves a receipt it cannot remove: with its reload it stands or falls. */
  lemma RevokeIsAllOrNothing(s: State, id: Id, steps: seq<Step>)
    requires s.op == Idle && IsRun(Do(s, BeginRevoke(id)), steps) && OneCommand(steps) && Undisturbed(steps)
    requires After(Do(s, BeginRevoke(id)), steps).op == Idle
    ensures var t := After(Do(s, BeginRevoke(id)), steps);
            && (t.files == s.files || NowRevoked(t.files, s.files, id))
            && (ReloadRevoke(true) in steps ==> NowRevoked(t.files, s.files, id))
            && (ReloadRevoke(false) in steps && ReloadRevoke(true) !in steps ==> t.files == s.files)
  {
    RunKeepsRevoking(Do(s, BeginRevoke(id)), steps, s.files, id, false, false);
  }

  /** The next step of the command under way, if nothing else fails. */
  function Onward(s: State): (a: Step) {
    match s.op
    case Idle => Crash
    case InviteStarted(_, _, _, _) => WriteReceipt(true)
    case ReceiptWritten(_, _, _, _) => WritePairing(true, 0)
    case PairingWritten(_, _, _) => ReloadInvite(true)
    case ConfigTruncated(_, _, _) => FinishConfigUndo
    case ReceiptToUndo(_, _, _) => UndoReceipt
    case ReceiptTruncated(_, _, _) => FinishReceiptUndo
    case RevokeStarted(_, _) => RevokePairing(true, 0)
    case NotFound(_, _) => RemoveReceipt(true)
    case Revoked(_, _) => ReloadRevoke(true)
    case RevokeTruncated(_, _) => FinishRevokeUndo
    case RevokeReloaded(_, _) => RemoveReceipt(true)
  }

  function StepsLeft(s: State): (n: nat) {
    match s.op
    case Idle => 0
    case InviteStarted(_, _, _, _) => 5
    case ReceiptWritten(_, _, _, _) => 4
    case ConfigTruncated(_, _, _) => 3
    case ReceiptToUndo(_, _, _) => 2
    case RevokeStarted(_, _) => 3
    case Revoked(_, _) => 2
    case _ => 1
  }

  /** A command never gets stuck: whatever failed before, at most five steps of its own end it. */
  lemma {:induction false} CommandEnds(s: State)
    requires s.op.ReceiptTruncated? ==> s.op.id in s.op.snap.receipts
    ensures exists steps :: |steps| <= StepsLeft(s) && IsRun(s, steps) && OneCommand(steps) && Undisturbed(steps)
                            && After(s, steps).op == Idle
    decreases StepsLeft(s)
  {
    if s.op == Idle {
      assert IsRun(s, []) && After(s, []) == s && OneCommand([]) && Undisturbed([]);
    } else {
      var a := Onward(s);
      CommandEnds(Do(s, a));
      var rest :| |rest| <= StepsLeft(Do(s, a)) && IsRun(Do(s, a), rest) && OneCommand(rest) && Undisturbed(rest)
                  && After(Do(s, a), rest).op == Idle;
      RunOfOne(s, a, rest);
      var steps := [a] + rest;
      assert |steps| <= StepsLeft(s) && OneCommand(steps) && Undisturbed(steps);
    }
  }

  // ---------------------------------------------------------------------------------------
  // Exactly when an invite is safe
  // ---------------------------------------------------------------------------------------

  /** No invite after the first step, so the run is one invite followed by anything else. */
  predicate NoMoreInvites(steps: seq<Step>) {
    forall i | 0 <= i < |steps| :: !steps[i].BeginInvite?
  }

  lemma {:induction false} QuietRunIsPolite(s: State, steps: seq<Step>)
    requires IsRun(s, steps) && NoMoreInvites(steps)
    ensures PoliteRun(s, steps)
    decreases |steps|
  {
    if steps != [] {
      QuietRunIsPolite(Do(s, steps[0]), steps[1..]);
    }
  }

  /** The agreement survives an invite, at every crash point and through every later command, if
      and only if the id was not paired with another token when the invite started. */
  lemma InviteSafeIffFitting(s: State, id: Id, token: Token, force: bool)
    requires s.op == Idle && s.last == Fresh && s.files.config.Parsed? && Agree(s.files)
    ensures Fitting(s.files, id, token) <==>
              forall steps | NoMoreInvites(steps) && IsRun(Do(s, BeginInvite(id, token, force)), steps) ::
                Agree(After(Do(s, BeginInvite(id, token, force)), steps).files)
  {
    var s1 := Do(s, BeginInvite(id, token, force));
    if Fitting(s.files, id, token) {
      StepKeepsInv(s, BeginInvite(id, token, force));
      forall steps | NoMoreInvites(steps) && IsRun(s1, steps) ensures Agree(After(s1, steps).files) {
        QuietRunIsPolite(s1, steps);
        RunKeepsInv(s1, steps);
      }
    } else {
      // the receipt is written, then the process dies
      var steps := [WriteReceipt(true), Crash];
      var s2 := Do(s1, WriteReceipt(true));
      assert steps[1..] == [Crash] && [Crash][1..] == [];
      assert IsRun(s2, [Crash]) && After(s2, [Crash]) == Do(s2, Crash);
      assert IsRun(s1, steps) && After(s1, steps) == Do(s2, Crash);
      var f := After(s1, steps).files;
      assert id in f.receipts && f.receipts[id] == Code(token);
      assert !Agree(f) && NoMoreInvites(steps);
    }
  }
}
