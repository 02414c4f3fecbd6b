/** execute_migration: what may be applied, in which order, and what the result then says. */
module MigrationRunner {
  import opened Prelude
  import opened MigrationProtocol
  import opened MigrationSession
  import Gate = MigrationGate

  datatype Mode = Expand | Contract | Verify

  datatype Request = Request(mode: Mode, expectedStart: Option<string>, target: string, treeOid: string)

  datatype PendingRange = PendingRange(ids: seq<string>, decision: Gate.Decision)

  datatype Kind = Applied | Verified | NoChanges | Rejected | Failed

  datatype Reason =
    | InvalidRequest | TargetMismatch | StartMismatch | InvalidPendingRange | VerifyNotAtTarget | ReasonVerified
    | ReasonNoChanges | ModeRangeMismatch | PostUpgradeMismatch | ReasonApplied
    | LockConflict | InvalidRevisionRange | ExecutionFailed

  const EXIT_SUCCESS := 0
  const EXIT_INVALID := 2
  const EXIT_NO_CHANGES := 3
  const EXIT_LOCK_CONFLICT := 11
  const EXIT_MIGRATION_FAILED := 12

  datatype RunResult = RunResult(
    mode: Mode, kind: Kind, start: Option<string>, end: Option<string>, target: string,
    pending: seq<string>, treeOid: string, reason: Reason, exitCode: int)

  function InitialResult(q: Request): RunResult {
    RunResult(q.mode, Rejected, None, None, q.target, [], q.treeOid, InvalidRequest, EXIT_INVALID)
  }

  /** A result, or an exception that no handler of the runner catches. */
  datatype Outcome = Finished(result: RunResult) | Escaped(exn: Exn)

  /** Everything the collaborators may do in one run. */
  datatype Script = Script(
    lock: LockAnswers,
    heads: Answer<(seq<string>, seq<string>)>,
    pending: Answer<PendingRange>,
    upgrade: UpgradeAnswers,
    headsAfter: Answer<(seq<string>, seq<string>)>,
    rollbackInside: Option<Exn>,
    rollbackOnError: Option<Exn>)

  // ---- Revision ids ----------------------------------------------------------------------

  predicate IsWordChar(c: char) {
    'A' <= c <= 'Z' || 'a' <= c <= 'z' || '0' <= c <= '9' || c == '_'
  }

  predicate IsRevisionId(s: string) {
    && 1 <= |s| <= 127 && IsWordChar(s[0])
    && (forall c <- s :: IsWordChar(c) || c == '.' || c == '-')
    && s !in {"base", "head", "heads"}
  }

  function SingleRevision(heads: seq<string>): Option<string> {
    if |heads| == 1 && IsRevisionId(heads[0]) then Some(heads[0]) else None
  }

  // ---- The conditions the source checks, in its order ----------------------------------------

  predicate HeadsMatch(q: Request, s: Script) {
    && s.heads.Returns?
    && SingleRevision(s.heads.value.0).Some?
    && SingleRevision(s.heads.value.1) == Some(q.target)
    && q.expectedStart in {None, SingleRevision(s.heads.value.0)}
  }

  predicate PendingUsable(s: Script) {
    && s.pending.Returns?
    && (forall id <- s.pending.value.ids :: IsRevisionId(id))
    && s.pending.value.decision != Gate.Invalid
  }

  function Start(s: Script): string
    requires s.heads.Returns? && SingleRevision(s.heads.value.0).Some?
  {
    SingleRevision(s.heads.value.0).value
  }

  /** The range is not empty and its decision is the one the mode stands for. */
  predicate MayUpgrade(q: Request, s: Script) {
    && HeadsMatch(q, s) && PendingUsable(s) && q.mode != Verify
    && s.pending.value.ids != []
    && s.pending.value.decision == (if q.mode == Expand then Gate.Expand else Gate.Manual)
  }

  predicate NothingToDo(q: Request, s: Script) {
    && HeadsMatch(q, s) && PendingUsable(s)
    && s.pending.value == PendingRange([], Gate.Nothing) && Start(s) == q.target
  }

  predicate EndsAtTarget(q: Request, s: Script) {
    && s.headsAfter.Returns?
    && SingleRevision(s.headsAfter.value.0) == Some(q.target)
    && SingleRevision(s.headsAfter.value.1) == Some(q.target)
  }

  /** The end revision that the reads after the upgrade make known. */
  function EndRead(s: Script): Option<string> {
    if s.headsAfter.Returns? && SingleRevision(s.headsAfter.value.1).Some?
    then SingleRevision(s.headsAfter.value.0) else None
  }

  predicate EntersLock(s: Script, held: nat) {
    EnterRaises(s.lock, held).None?
  }

  predicate LeavesLock(s: Script) {
    s.lock.unlock.None? && s.lock.commitOut.None?
  }

  /** What `upgrade` raises here. The session holds the lock, and how often makes no difference. */
  function UpgradeError(s: Script): Option<Exn> {
    UpgradeRaises(s.upgrade, 1)
  }

  function AnswerRaises<T>(a: Answer<T>): Option<Exn> {
    if a.Raises? then Some(a.exn) else None
  }

  // ---- The same conditions in plain terms ---------------------------------------------------------

  /** `require_revision_id`, and exactly one head. */
  lemma SingleRevisionMeans(heads: seq<string>, r: string)
    ensures SingleRevision(heads) == Some(r) <==>
      && heads == [r] && 1 <= |r| <= 127 && r[0] !in {'.', '-'}
      && (forall c <- r :: 'A' <= c <= 'Z' || 'a' <= c <= 'z' || '0' <= c <= '9' || c in {'_', '.', '-'})
      && r != "base" && r != "head" && r != "heads"
  {
    if |heads| == 1 {
      assert heads == [heads[0]];
    }
    if r != "" {
      assert r[0] in r;
    }
  }

  /** One upgrade is due exactly if database and tree have one head each, the tree's is the target, the
      database's is an expected one, and something is pending of the kind that the mode stands for. */
  lemma MayUpgradeMeans(q: Request, s: Script)
    ensures MayUpgrade(q, s) <==>
      && s.heads.Returns? && s.pending.Returns?
      && |s.heads.value.0| == 1 && s.heads.value.1 == [q.target]
      && SingleRevision(s.heads.value.0).Some? && SingleRevision([q.target]).Some?
      && (q.expectedStart.Some? ==> s.heads.value.0 == [q.expectedStart.value])
      && s.pending.value.ids != [] && (forall id <- s.pending.value.ids :: SingleRevision([id]).Some?)
      && (|| (q.mode.Expand? && s.pending.value.decision.Expand?)
          || (q.mode.Contract? && s.pending.value.decision.Manual?))
  {
    if s.heads.Returns? && |s.heads.value.0| == 1 && |s.heads.value.1| == 1 {
      assert s.heads.value.0 == [s.heads.value.0[0]] && s.heads.value.1 == [s.heads.value.1[0]];
    }
    if s.pending.Returns? {
      assert forall id: string :: SingleRevision([id]).Some? <==> IsRevisionId(id);
    }
  }

  /** Nothing is to be done exactly if the database is at the target, nothing is pending, and the tree
      agrees. */
  lemma NothingToDoMeans(q: Request, s: Script)
    ensures NothingToDo(q, s) <==>
      && s.heads == Returns(([q.target], [q.target])) && SingleRevision([q.target]).Some?
      && q.expectedStart in {None, Some(q.target)}
      && s.pending.Returns? && s.pending.value.ids == [] && s.pending.value.decision.Nothing?
  {
    if s.heads.Returns? && |s.heads.value.0| == 1 && |s.heads.value.1| == 1 {
      assert s.heads.value.0 == [s.heads.value.0[0]] && s.heads.value.1 == [s.heads.value.1[0]];
    }
  }

  lemma EndsAtTargetMeans(q: Request, s: Script)
    requires SingleRevision([q.target]).Some?
    ensures EndsAtTarget(q, s) <==> s.headsAfter == Returns(([q.target], [q.target]))
  {
    if s.headsAfter.Returns? && |s.headsAfter.value.0| == 1 && |s.headsAfter.value.1| == 1 {
      assert s.headsAfter.value.0 == [s.headsAfter.value.0[0]] && s.headsAfter.value.1 == [s.headsAfter.value.1[0]];
    }
  }

  // ---- How the block under the lock ends --------------------------------------------------------

  /** What the checks before the upgrade raise. */
  function ChecksRaise(q: Request, s: Script): Option<Exn> {
    if s.heads.Raises? then Some(s.heads.exn)
    else if SingleRevision(s.heads.value.0).None? || SingleRevision(s.heads.value.1).None? then Some(GateError)
    else if !HeadsMatch(q, s) then None
    else if s.pending.Raises? then Some(s.pending.exn)
    else if exists id <- s.pending.value.ids :: !IsRevisionId(id) then Some(GateError)
    else None
  }

  /** What is raised in the block before its own handler gets to see it. */
  function BlockRaises(q: Request, s: Script): Option<Exn> {
    if !MayUpgrade(q, s) then ChecksRaise(q, s)
    else if UpgradeError(s).Some? then UpgradeError(s)
    else if s.headsAfter.Raises? then Some(s.headsAfter.exn)
    else if !EndsAtTarget(q, s) then s.rollbackInside
    else None
  }

  /** The collaborator that raised has aborted the transaction. */
  predicate BlockAborts(q: Request, s: Script) {
    if MayUpgrade(q, s) then
      UpgradeAborts(s.upgrade) || (UpgradeError(s).None? && s.headsAfter.Raises? && s.headsAfter.aborts)
    else
      || (s.heads.Raises? && s.heads.aborts)
      || (HeadsMatch(q, s) && s.pending.Raises? && s.pending.aborts)
  }

  /** The block's handler does not see an interrupt, and its rollback may fail in turn. */
  function LeavesBlock(q: Request, s: Script): Option<Exn> {
    var raised := BlockRaises(q, s);
    if raised in {None, Some(Interrupt)} || s.rollbackOnError.None? then raised else s.rollbackOnError
  }

  /** The lock is left with the transaction still aborted. */
  predicate LeftAborted(q: Request, s: Script) {
    BlockAborts(q, s) && (BlockRaises(q, s) == Some(Interrupt) || s.rollbackOnError.Some?)
  }

  // ---- How the whole run ends ---------------------------------------------------------------------

  /** What reaches the outer handlers; leaving the lock can hide what left the block. */
  function Escapes(q: Request, s: Script, held: nat): Option<Exn> {
    if !EntersLock(s, held) then EnterRaises(s.lock, held)
    else if LeftAborted(q, s) then Some(OtherError)
    else if s.lock.unlock.Some? then s.lock.unlock
    else if s.lock.commitOut.Some? then s.lock.commitOut
    else LeavesBlock(q, s)
  }

  /** Every acquisition is given back. */
  predicate GivesLockBack(q: Request, s: Script, held: nat) {
    if !EntersLock(s, held) then !TryGets(s.lock, held)
    else s.lock.unlock.None? && !LeftAborted(q, s) && (MayUpgrade(q, s) ==> UpgradeKeeps(s.upgrade))
  }

  /** An unlock, the outer or the nested one, is sent on an aborted transaction. */
  predicate LosesUnlock(q: Request, s: Script, held: nat) {
    EntersLock(s, held) && (LeftAborted(q, s) || (MayUpgrade(q, s) && UpgradeLosesUnlock(s.upgrade)))
  }

  predicate Interrupted(s: Script) {
    || s.lock.try == TryRaises(Interrupt)
    || Some(Interrupt) in
         {AnswerRaises(s.heads), AnswerRaises(s.pending), UpgradeError(s), AnswerRaises(s.headsAfter)}
  }

  /** Rollbacks, commits and unlocks succeed, failed scripts are rolled back, and nothing
      raises an exception outside Exception. */
  predicate Orderly(s: Script) {
    && LockWorks(s.lock) && Unwinds(s.upgrade)
    && s.rollbackInside.None? && s.rollbackOnError.None?
    && !Interrupted(s)
  }

  /** No collaborator raises the exception that means "another session holds the lock". */
  predicate NobodyElseConflicts(s: Script) {
    && Some(LockUnavailable) !in
         {AnswerRaises(s.heads), AnswerRaises(s.pending), UpgradeError(s), AnswerRaises(s.headsAfter)}
    && Some(LockUnavailable) !in
         {s.rollbackInside, s.rollbackOnError, s.lock.commitIn, s.lock.unlock, s.lock.commitOut}
    && s.lock.try != TryRaises(LockUnavailable)
  }

  /** If the rollback after an error succeeds, failed scripts are rolled back and nothing outside
      Exception is raised, then no unlock meets an aborted transaction, whatever else fails. */
  lemma RollbackIsEnough(q: Request, s: Script, held: nat)
    requires s.rollbackOnError.None? && !Interrupted(s)
    requires s.upgrade.scripts.Some? ==> s.upgrade.rolledBack
    ensures !LosesUnlock(q, s, held)
    ensures LockWorks(s.lock) && LockWorks(s.upgrade.lock) ==> GivesLockBack(q, s, held)
  {
  }

  /** When everything else works, a run gives its lock back, loses no unlock and has a result. */
  lemma OrderlyMeans(q: Request, s: Script, held: nat)
    requires Orderly(s)
    ensures GivesLockBack(q, s, held) && !LosesUnlock(q, s, held) && Escapes(q, s, held) != Some(Interrupt)
  {
  }

  /** Unless a collaborator raises the exception itself, a conflict means that the server refused the
      lock to a session that did not hold it. */
  lemma ConflictIsRefusal(q: Request, s: Script, held: nat)
    requires NobodyElseConflicts(s)
    ensures Escapes(q, s, held) == Some(LockUnavailable) <==> s.lock.try.Refused? && held == 0
  {
  }

  /** The lock is granted, everything is read, and the upgrade is carried out without an error. */
  predicate GoesWell(q: Request, s: Script) {
    && s.lock == LockAnswers(Granted, None, None, None) && MayUpgrade(q, s)
    && s.upgrade == UpgradeAnswers(None, None, s.lock, None, s.upgrade.rolledBack)
    && s.headsAfter.Returns? && s.rollbackInside.None? && s.rollbackOnError.None?
  }

  /** A single error, wherever it happens, comes out unchanged: none is swallowed and none takes the place of
      another. */
  lemma OneErrorComesOut(q: Request, s: Script, held: nat, x: Exn, aborts: bool)
    requires GoesWell(q, s) && x != Interrupt
    ensures Escapes(q, s, held) == None
    ensures Escapes(q, s.(lock := s.lock.(try := TryRaises(x))), held) == Some(x)
    ensures Escapes(q, s.(lock := s.lock.(commitIn := Some(x))), held) == Some(x)
    ensures Escapes(q, s.(heads := Raises(x, aborts)), held) == Some(x)
    ensures Escapes(q, s.(pending := Raises(x, aborts)), held) == Some(x)
    ensures Escapes(q, s.(upgrade := s.upgrade.(commit := Some(x))), held) == Some(x)
    ensures Escapes(q, s.(upgrade := s.upgrade.(prepare := Some(x))), held) == Some(x)
    ensures Escapes(q, s.(upgrade := s.upgrade.(scripts := Some(x), rolledBack := true)), held) == Some(x)
    ensures Escapes(q, s.(headsAfter := Raises(x, aborts)), held) == Some(x)
    ensures Escapes(q, s.(lock := s.lock.(unlock := Some(x))), held) == Some(x)
    ensures Escapes(q, s.(lock := s.lock.(commitOut := Some(x))), held) == Some(x)
    ensures Escapes(q, s.(rollbackInside := Some(x)), held) == if EndsAtTarget(q, s) then None else Some(x)
  {
  }

  /** Of two errors the later one comes out: leaving the lock hides what left the block. */
  lemma LaterErrorComesOut(q: Request, s: Script, held: nat, x: Exn, y: Exn)
    requires GoesWell(q, s) && x != Interrupt
    ensures var failed := s.(upgrade := s.upgrade.(scripts := Some(x), rolledBack := true));
      && Escapes(q, failed.(rollbackOnError := Some(y)), held) == Some(y)
      && Escapes(q, failed.(lock := s.lock.(unlock := Some(y))), held) == Some(y)
      && Escapes(q, failed.(lock := s.lock.(commitOut := Some(y))), held) == Some(y)
  {
  }

  /** How the block under the lock ends: it returns a result, or it raises.
      `sofar` is what the variable `result` holds at that moment: an early return leaves it alone. */
  datatype Flow = Done(result: RunResult, sofar: RunResult) | Threw(exn: Exn, sofar: RunResult)

  /** What a result's kind, reason and exit code must agree on. */
  predicate Coherent(r: RunResult) {
    && (r.exitCode == EXIT_SUCCESS <==> r.kind.Applied? || r.kind.Verified?)
    && (r.exitCode == EXIT_NO_CHANGES <==> r.kind.NoChanges?)
    && (r.exitCode == EXIT_MIGRATION_FAILED <==> r.kind.Failed?)
    && (r.exitCode in {EXIT_INVALID, EXIT_LOCK_CONFLICT} <==> r.kind.Rejected?)
    && (r.exitCode == EXIT_LOCK_CONFLICT <==> r.reason.LockConflict?)
    && (r.kind.Applied? <==> r.reason.ReasonApplied?)
    && (r.kind.Verified? <==> r.reason.ReasonVerified?)
    && (r.kind.NoChanges? <==> r.reason.ReasonNoChanges?)
    && (r.kind.Failed? <==> r.reason.PostUpgradeMismatch? || r.reason.ExecutionFailed?)
  }

  /** The start revision, once both heads are known to be single revisions. */
  function StartRead(s: Script): Option<string> {
    if s.heads.Returns? && SingleRevision(s.heads.value.1).Some? then SingleRevision(s.heads.value.0) else None
  }

  /** The pending ids, once the checks got that far and found them concrete. */
  function IdsRead(q: Request, s: Script): seq<string> {
    if HeadsMatch(q, s) && s.pending.Returns? && forall id <- s.pending.value.ids :: IsRevisionId(id)
    then s.pending.value.ids else []
  }

  /** What every result says of the request and of what was read before the upgrade. */
  predicate Tells(q: Request, s: Script, r: RunResult) {
    && r.mode == q.mode && r.target == q.target && r.treeOid == q.treeOid
    && r.start == StartRead(s) && r.pending == IdsRead(q, s)
  }

  /** Which check gives which reason when no exception is raised. */
  predicate ReasonFits(q: Request, s: Script, reason: Reason) {
    && (reason.TargetMismatch? <==>
          s.heads.Returns? && StartRead(s).Some? && SingleRevision(s.heads.value.1) != Some(q.target))
    && (reason.StartMismatch? <==>
          s.heads.Returns? && StartRead(s).Some? && SingleRevision(s.heads.value.1) == Some(q.target)
          && q.expectedStart !in {None, StartRead(s)})
    && (reason.InvalidPendingRange? <==>
          && HeadsMatch(q, s) && s.pending.Returns?
          && (s.pending.value.decision.Invalid?
              || (!q.mode.Verify? && s.pending.value.ids == [] && !NothingToDo(q, s))))
    && (reason.VerifyNotAtTarget? <==> HeadsMatch(q, s) && PendingUsable(s) && q.mode.Verify? && !NothingToDo(q, s))
    && (reason.ModeRangeMismatch? <==>
          HeadsMatch(q, s) && PendingUsable(s) && !q.mode.Verify? && s.pending.value.ids != [] && !MayUpgrade(q, s))
    && (reason.ReasonVerified? <==> NothingToDo(q, s) && q.mode.Verify?)
    && (reason.ReasonNoChanges? <==> NothingToDo(q, s) && !q.mode.Verify?)
    && (reason.ReasonApplied? <==> MayUpgrade(q, s) && EndsAtTarget(q, s))
    && (reason.PostUpgradeMismatch? <==> MayUpgrade(q, s) && !EndsAtTarget(q, s))
  }

  /** How the block under the lock has to end. */
  predicate FlowFits(q: Request, s: Script, flow: Flow) {
    && (flow.Threw? <==> LeavesBlock(q, s).Some?)
    && (flow.Threw? ==> Some(flow.exn) == LeavesBlock(q, s))
    && Tells(q, s, flow.sofar)
    && flow.sofar.end == (if MayUpgrade(q, s) && UpgradeError(s).None? then EndRead(s) else None)
    && (flow.Done? ==>
          && Coherent(flow.result) && Tells(q, s, flow.result) && ReasonFits(q, s, flow.result.reason)
          && flow.result.end == if NothingToDo(q, s) then Some(q.target) else flow.sofar.end)
  }

  /** How the whole run has to be reported. `reached`: the lock was entered and every check passed, so that
      the upgrade was started. */
  predicate Reports(q: Request, s: Script, held: nat, r: RunResult) {
    var escaped, reached := Escapes(q, s, held), EntersLock(s, held) && MayUpgrade(q, s);
    && Coherent(r)
    // A failure is an ordinary error, an error of the gate after the upgrade was reached, or a database that
    // is not at the target afterwards.
    && (r.kind.Failed? <==>
          || escaped == Some(OtherError)
          || (escaped == Some(GateError) && reached)
          || (escaped == None && reached && !EndsAtTarget(q, s)))
    // Once the upgrade was started nothing is reported as an invalid request.
    && (reached ==> r.exitCode in {EXIT_SUCCESS, EXIT_LOCK_CONFLICT, EXIT_MIGRATION_FAILED})
    // What stands for which exception, and otherwise for which check.
    && (r.reason.LockConflict? <==> escaped == Some(LockUnavailable))
    && (r.reason.InvalidRevisionRange? <==> escaped == Some(GateError) && !reached)
    && (r.reason.ExecutionFailed? <==> escaped == Some(OtherError) || (escaped == Some(GateError) && reached))
    && (escaped == None ==> ReasonFits(q, s, r.reason))
    && !r.reason.InvalidRequest?
    // What was read before and after.
    && (if EntersLock(s, held) then Tells(q, s, r)
        else r == InitialResult(q).(kind := r.kind, reason := r.reason, exitCode := r.exitCode))
    && r.end == (if r.kind.Verified? || r.kind.NoChanges? then Some(q.target)
                 else if reached && UpgradeError(s).None? then EndRead(s)
                 else None)
  }

  // ---- The runner -------------------------------------------------------------------------------

  method CheckRevisions(ids: seq<string>) returns (ok: bool)
    ensures ok <==> forall id <- ids :: IsRevisionId(id)
  {
    for i := 0 to |ids|
      invariant forall id <- ids[..i] :: IsRevisionId(id)
    {
      if SingleRevision([ids[i]]).None? {
        return false;
      }
      assert ids[..i + 1] == ids[..i] + [ids[i]];
    }
    assert ids[..|ids|] == ids;
    return true;
  }

  /** The reads and checks that come before anything is changed. Done is an early return. */
  method Prepare(db: Session, q: Request, s: Script) returns (stop: Option<Flow>, result: RunResult)
    requires db.tx != AbortedTx && db.phase == Holding
    modifies db`tx, db`phase
    ensures stop.None? <==> MayUpgrade(q, s)
    ensures stop.None? ==> db.tx != AbortedTx && db.phase == PendingRead
    ensures Tells(q, s, result) && result.end == None
    ensures stop.Some? ==> stop.value.sofar == result
    ensures stop.Some? ==> (stop.value.Threw? <==> ChecksRaise(q, s).Some?)
    ensures stop.Some? && stop.value.Threw? ==> Some(stop.value.exn) == ChecksRaise(q, s)
    ensures stop.Some? && stop.value.Done? ==>
      var r := stop.value.result;
      && db.tx != AbortedTx && Coherent(r) && Tells(q, s, r) && ReasonFits(q, s, r.reason)
      && r.end == if NothingToDo(q, s) then Some(q.target) else None
    ensures db.phase in {Holding, HeadsRead, PendingRead}
    ensures !MayUpgrade(q, s) ==> (db.tx == AbortedTx <==> BlockAborts(q, s))
  {
    result := InitialResult(q);
    var heads := db.Ask(s.heads, ReadHeads);
    if heads.Raises? {
      return Some(Threw(heads.exn, result)), result;
    }
    var start, target := SingleRevision(heads.value.0), SingleRevision(heads.value.1);
    if start.None? || target.None? {
      return Some(Threw(GateError, result)), result;
    }
    result := result.(start := start);
    if target.value != q.target {
      return Some(Done(result.(reason := TargetMismatch), result)), result;
    }
    if q.expectedStart !in {None, start} {
      return Some(Done(result.(reason := StartMismatch), result)), result;
    }
    stop, result := PreparePending(db, q, s, result);
  }

  /** The second half of the checks: the pending range. */
  method PreparePending(db: Session, q: Request, s: Script, before: RunResult)
    returns (stop: Option<Flow>, result: RunResult)
    requires db.tx != AbortedTx && db.phase == HeadsRead && HeadsMatch(q, s)
    requires before == InitialResult(q).(start := StartRead(s))
    modifies db`tx, db`phase
    ensures stop.None? <==> MayUpgrade(q, s)
    ensures stop.None? ==> db.tx != AbortedTx && db.phase == PendingRead
    ensures Tells(q, s, result) && result.end == None
    ensures stop.Some? ==> stop.value.sofar == result
    ensures stop.Some? ==> (stop.value.Threw? <==> ChecksRaise(q, s).Some?)
    ensures stop.Some? && stop.value.Threw? ==> Some(stop.value.exn) == ChecksRaise(q, s)
    ensures stop.Some? && stop.value.Done? ==>
      var r := stop.value.result;
      && db.tx != AbortedTx && Coherent(r) && Tells(q, s, r) && ReasonFits(q, s, r.reason)
      && r.end == if NothingToDo(q, s) then Some(q.target) else None
    ensures db.phase in {HeadsRead, PendingRead}
    ensures !MayUpgrade(q, s) ==> (db.tx == AbortedTx <==> BlockAborts(q, s))
  {
    result := before;
    var pending := db.Ask(s.pending, LoadPending);
    if pending.Raises? {
      return Some(Threw(pending.exn, result)), result;
    }
    var valid := CheckRevisions(pending.value.ids);
    if !valid {
      return Some(Threw(GateError, result)), result;
    }
    result := result.(pending := pending.value.ids);
    var ids, decision := pending.value.ids, pending.value.decision;
    if decision == Gate.Invalid {
      return Some(Done(result.(reason := InvalidPendingRange), result)), result;
    }
    if q.mode == Verify {
      if result.start != Some(q.target) || ids != [] || decision != Gate.Nothing {
        return Some(Done(result.(reason := VerifyNotAtTarget), result)), result;
      }
      return Some(Done(
        result.(kind := Verified, end := result.start, reason := ReasonVerified, exitCode := EXIT_SUCCESS),
        result)), result;
    }
    if ids == [] {
      if decision != Gate.Nothing || result.start != Some(q.target) {
        return Some(Done(result.(reason := InvalidPendingRange), result)), result;
      }
      return Some(Done(
        result.(kind := NoChanges, end := result.start, reason := ReasonNoChanges, exitCode := EXIT_NO_CHANGES),
        result)), result;
    }
    if decision != (if q.mode == Expand then Gate.Expand else Gate.Manual) {
      return Some(Done(result.(reason := ModeRangeMismatch), result)), result;
    }
    return None, result;
  }

  /** The upgrade itself and the check that it ended where it should. */
  method UpgradeAndCheck(db: Session, q: Request, s: Script, before: RunResult) returns (flow: Flow)
    requires db.tx != AbortedTx && db.phase == PendingRead && db.held > 0 && MayUpgrade(q, s)
    requires Tells(q, s, before) && before.end == None
    modifies db
    ensures db.upgrades == old(db.upgrades) + [q.target]
    ensures db.held == old(db.held) + if UpgradeKeeps(s.upgrade) then 0 else 1
    ensures db.unlockLost == (old(db.unlockLost) || UpgradeLosesUnlock(s.upgrade))
    ensures db.tx == AbortedTx <==> BlockAborts(q, s)
    ensures Unwinds(s.upgrade) ==> Depth(db.phase) == 1
    ensures Depth(db.phase) > 0
    ensures flow.Threw? <==> BlockRaises(q, s).Some?
    ensures flow.Threw? ==> Some(flow.exn) == BlockRaises(q, s)
    ensures flow.Done? ==> Coherent(flow.result) && Tells(q, s, flow.result) && ReasonFits(q, s, flow.result.reason)
    // The end revision is known once both heads have been read and are single revisions.
    ensures Tells(q, s, flow.sofar) && flow.sofar.end == if UpgradeError(s).None? then EndRead(s) else None
    ensures flow.Done? ==> flow.result.end == flow.sofar.end
  {
    var raised := db.Upgrade(q.target, s.upgrade);
    if raised.Some? {
      return Threw(raised.value, before);
    }
    var heads := db.Ask(s.headsAfter, ReadHeads);
    if heads.Raises? {
      return Threw(heads.exn, before);
    }
    var end, finalHead := SingleRevision(heads.value.0), SingleRevision(heads.value.1);
    var failed := before.(kind := Failed, reason := PostUpgradeMismatch, exitCode := EXIT_MIGRATION_FAILED);
    if end.None? || finalHead.None? || end.value != q.target || finalHead.value != q.target {
      var sofar := if end.None? || finalHead.None? then before else before.(end := end);
      var broke := db.Rollback(s.rollbackInside);
      if broke.Some? {
        return Threw(broke.value, sofar);
      }
      return Done(failed.(end := sofar.end), sofar);
    }
    var applied := before.(end := end, kind := Applied, reason := ReasonApplied, exitCode := EXIT_SUCCESS);
    return Done(applied, applied);
  }

  /** The body of the `with lock` block, with its rollback on every ordinary exception. */
  method UnderLock(db: Session, q: Request, s: Script) returns (flow: Flow, applying: bool)
    requires db.tx != AbortedTx && db.phase == Holding && db.held > 0
    modifies db
    ensures applying <==> MayUpgrade(q, s)
    ensures db.upgrades == old(db.upgrades) + (if MayUpgrade(q, s) then [q.target] else [])
    ensures Depth(db.phase) > 0
    ensures db.held == old(db.held) + if MayUpgrade(q, s) && !UpgradeKeeps(s.upgrade) then 1 else 0
    ensures db.unlockLost == (old(db.unlockLost) || (MayUpgrade(q, s) && UpgradeLosesUnlock(s.upgrade)))
    // An ordinary exception is rolled back before the lock is released.
    ensures db.tx == AbortedTx <==> LeftAborted(q, s)
    ensures Unwinds(s.upgrade) ==> Depth(db.phase) == 1
    ensures FlowFits(q, s, flow)
  {
    applying := false;
    var stop, result := Prepare(db, q, s);
    if stop.Some? {
      flow := stop.value;
    } else {
      applying := true;
      flow := UpgradeAndCheck(db, q, s, result);
    }
    if flow.Threw? && !flow.exn.Interrupt? {
      var broke := db.Rollback(s.rollbackOnError);
      if broke.Some? {
        flow := Threw(broke.value, flow.sofar);
      }
    }
  }

  /** The handlers keep what the variable `result` says otherwise. */
  function Handle(exn: Exn, applying: bool, sofar: RunResult): (out: Outcome)
    ensures out.Escaped? <==> exn.Interrupt?
    ensures out.Finished? ==>
      var r := out.result;
      && Coherent(r) && r == sofar.(kind := r.kind, reason := r.reason, exitCode := r.exitCode)
      && (r.reason.LockConflict? <==> exn.LockUnavailable?)
      && (r.reason.InvalidRevisionRange? <==> exn.GateError? && !applying)
      && (r.reason.ExecutionFailed? <==> exn.OtherError? || (exn.GateError? && applying))
  {
    match exn
    case LockUnavailable => Finished(sofar.(kind := Rejected, reason := LockConflict, exitCode := EXIT_LOCK_CONFLICT))
    case GateError =>
      Finished(sofar.(kind := if applying then Failed else Rejected,
                      reason := if applying then ExecutionFailed else InvalidRevisionRange,
                      exitCode := if applying then EXIT_MIGRATION_FAILED else EXIT_INVALID))
    case OtherError => Finished(sofar.(kind := Failed, reason := ExecutionFailed, exitCode := EXIT_MIGRATION_FAILED))
    case Interrupt => Escaped(exn)
  }

  /** How the outer handlers end a run whose lock was entered. */
  function Outer(q: Request, s: Script, held: nat, flow: Flow): Outcome
    requires EntersLock(s, held) && FlowFits(q, s, flow)
  {
    match Escapes(q, s, held)
    case Some(x) => Handle(x, MayUpgrade(q, s), flow.sofar)
    case None => Finished(flow.result)
  }

  lemma NotEnteredReports(q: Request, s: Script, held: nat)
    requires !EntersLock(s, held)
    ensures var out := Handle(EnterRaises(s.lock, held).value, false, InitialResult(q));
            out.Finished? ==> Reports(q, s, held, out.result)
  {
  }

  lemma EnteredReports(q: Request, s: Script, held: nat, flow: Flow)
    requires EntersLock(s, held) && FlowFits(q, s, flow)
    ensures Outer(q, s, held, flow).Finished? ==> Reports(q, s, held, Outer(q, s, held, flow).result)
  {
  }

  /** Each success is reported exactly when it happened. */
  lemma SuccessMeans(q: Request, s: Script, held: nat, r: RunResult)
    requires Reports(q, s, held, r) && Escapes(q, s, held) != Some(Interrupt)
    ensures r.kind.Applied? <==>
      EntersLock(s, held) && LeavesLock(s) && MayUpgrade(q, s) && UpgradeError(s).None? && EndsAtTarget(q, s)
    ensures r.kind.Verified? <==> EntersLock(s, held) && LeavesLock(s) && NothingToDo(q, s) && q.mode.Verify?
    ensures r.kind.NoChanges? <==> EntersLock(s, held) && LeavesLock(s) && NothingToDo(q, s) && !q.mode.Verify?
    ensures r.kind.Applied? ==> r.start == Some(Start(s)) && r.end == Some(q.target)
    ensures r.kind.Verified? || r.kind.NoChanges? ==> r.start == r.end == Some(q.target)
  {
    NothingEscapes(q, s, held);
    match Escapes(q, s, held)
    case None =>
    case Some(GateError) =>
    case Some(LockUnavailable) =>
    case Some(OtherError) =>
    case Some(Interrupt) =>
  }

  lemma NothingEscapes(q: Request, s: Script, held: nat)
    ensures Escapes(q, s, held) == None <==> EntersLock(s, held) && LeavesLock(s) && BlockRaises(q, s) == None
    ensures NothingToDo(q, s) || (MayUpgrade(q, s) && UpgradeError(s).None? && EndsAtTarget(q, s)) ==>
      BlockRaises(q, s) == None
  {
    if BlockRaises(q, s) == None {
      assert !BlockAborts(q, s);
    }
  }

  /** Exit code 2 stands for a check that failed before anything was started. */
  lemma InvalidMeans(q: Request, s: Script, held: nat, r: RunResult)
    requires Reports(q, s, held, r) && r.exitCode == EXIT_INVALID
    ensures !(EntersLock(s, held) && MayUpgrade(q, s)) && r.kind.Rejected?
    ensures r.reason in {TargetMismatch, StartMismatch, InvalidPendingRange, VerifyNotAtTarget, ModeRangeMismatch,
                         InvalidRevisionRange}
  {
  }

  /** If nothing is raised, both heads were read as single revisions. */
  lemma HeadsAreSingle(q: Request, s: Script)
    requires BlockRaises(q, s) == None
    ensures s.heads.Returns? && |s.heads.value.0| == |s.heads.value.1| == 1
    ensures SingleRevision(s.heads.value.0) == StartRead(s) == Some(s.heads.value.0[0])
    ensures SingleRevision(s.heads.value.1) == Some(s.heads.value.1[0])
  {
  }

  lemma HeadReasonMeans(q: Request, s: Script, reason: Reason)
    requires BlockRaises(q, s) == None && ReasonFits(q, s, reason)
    ensures s.heads.Returns? && |s.heads.value.0| == |s.heads.value.1| == 1
    ensures reason.TargetMismatch? <==> s.heads.value.1[0] != q.target
    ensures reason.StartMismatch? <==>
      s.heads.value.1[0] == q.target && q.expectedStart.Some? && q.expectedStart.value != s.heads.value.0[0]
    ensures HeadsMatch(q, s) <==> !reason.TargetMismatch? && !reason.StartMismatch?
  {
    HeadsAreSingle(q, s);
    var database, tree := s.heads.value.0[0], s.heads.value.1[0];
    assert StartRead(s) == Some(database);
    assert SingleRevision(s.heads.value.1) == Some(q.target) <==> tree == q.target;
    assert q.expectedStart !in {None, Some(database)} <==>
      q.expectedStart.Some? && q.expectedStart.value != database;
  }

  lemma RangeReasonMeans(q: Request, s: Script, reason: Reason)
    requires BlockRaises(q, s) == None && ReasonFits(q, s, reason) && HeadsMatch(q, s)
    ensures s.pending.Returns? && |s.heads.value.0| == 1
    ensures var ids, decision := s.pending.value.ids, s.pending.value.decision;
            var atTarget := s.heads.value.0[0] == q.target;
            if decision.Invalid? then reason.InvalidPendingRange?
            else if ids == [] && decision.Nothing? && atTarget then
              reason == if q.mode.Verify? then ReasonVerified else ReasonNoChanges
            else if q.mode.Verify? then reason.VerifyNotAtTarget?
            else if ids == [] then reason.InvalidPendingRange?
            else if (q.mode.Expand? && !decision.Expand?) || (q.mode.Contract? && !decision.Manual?) then
              reason.ModeRangeMismatch?
            else if s.headsAfter == Returns(([q.target], [q.target])) then reason.ReasonApplied?
            else reason.PostUpgradeMismatch?
  {
    HeadsAreSingle(q, s);
    var database, tree := s.heads.value.0, s.heads.value.1;
    assert database == [database[0]] && tree == [tree[0]] && SingleRevision([q.target]).Some?;
    assert Start(s) == database[0];
    EndsAtTargetMeans(q, s);
  }

  /** The reasons in terms of what was read, for a run in which nothing is raised: the first check that fails
      gives the reason, in this order. */
  lemma ReasonMeans(q: Request, s: Script, held: nat, r: RunResult)
    requires Reports(q, s, held, r) && Escapes(q, s, held) == None
    ensures s.heads.Returns? && |s.heads.value.0| == |s.heads.value.1| == 1
    ensures r.reason.TargetMismatch? <==> s.heads.value.1[0] != q.target
    ensures r.reason.StartMismatch? <==>
      s.heads.value.1[0] == q.target && q.expectedStart.Some? && q.expectedStart.value != s.heads.value.0[0]
    ensures !r.reason.TargetMismatch? && !r.reason.StartMismatch? ==>
      && s.pending.Returns?
      && var ids, decision, atTarget := s.pending.value.ids, s.pending.value.decision, s.heads.value.0[0] == q.target;
         if decision.Invalid? then r.reason.InvalidPendingRange?
         else if ids == [] && decision.Nothing? && atTarget then
           r.reason == if q.mode.Verify? then ReasonVerified else ReasonNoChanges
         else if q.mode.Verify? then r.reason.VerifyNotAtTarget?
         else if ids == [] then r.reason.InvalidPendingRange?
         else if (q.mode.Expand? && !decision.Expand?) || (q.mode.Contract? && !decision.Manual?) then
           r.reason.ModeRangeMismatch?
         else if s.headsAfter == Returns(([q.target], [q.target])) then r.reason.ReasonApplied?
         else r.reason.PostUpgradeMismatch?
  {
    NothingEscapes(q, s, held);
    HeadReasonMeans(q, s, r.reason);
    if HeadsMatch(q, s) {
      RangeReasonMeans(q, s, r.reason);
    }
  }

  method ExecuteMigration(db: Session, q: Request, s: Script) returns (out: Outcome)
    requires db.tx != AbortedTx && db.phase == Outside
    modifies db
    // At most one upgrade, and exactly when the lock was entered and every check passed.
    ensures db.upgrades == old(db.upgrades) +
      (if EntersLock(s, old(db.held)) && MayUpgrade(q, s) then [q.target] else [])
    // No handler catches an interrupt; every other run has a result, and it says what happened.
    ensures out.Escaped? <==> Escapes(q, s, old(db.held)) == Some(Interrupt)
    ensures out.Finished? ==> Reports(q, s, old(db.held), out.result)
    // The lock is given back, and an unlock is lost to an aborted transaction, exactly if:
    ensures db.held == old(db.held) <==> GivesLockBack(q, s, old(db.held))
    ensures db.held >= old(db.held)
    ensures db.unlockLost == (old(db.unlockLost) || LosesUnlock(q, s, old(db.held)))
    ensures Orderly(s) ==> db.phase in {Outside, Released}
  {
    ghost var held := db.held;
    var raised := db.Enter(s.lock, false);
    if raised.Some? {
      NotEnteredReports(q, s, held);
      return Handle(raised.value, false, InitialResult(q));
    }
    var flow, applying := UnderLock(db, q, s);
    var leaving := db.Exit(s.lock, false);
    if leaving.Some? {
      out := Handle(leaving.value, applying, flow.sofar);
    } else if flow.Threw? {
      out := Handle(flow.exn, applying, flow.sofar);
    } else {
      out := Finished(flow.result);
    }
    assert out == Outer(q, s, held, flow);
    EnteredReports(q, s, held, flow);
  }
}
