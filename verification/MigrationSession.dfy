/** A database session as the migration code sees it: a transaction state, a counting session
    advisory lock, and collaborators that may raise anywhere. */
module MigrationSession {
  import opened Prelude
  import opened MigrationProtocol

  /** `Interrupt` stands for the exceptions that `except Exception` does not catch. */
  datatype Exn = GateError | LockUnavailable | OtherError | Interrupt

  datatype TxState = NoTx | OpenTx | AbortedTx

  /** What a collaborator does when called. One that returns leaves the transaction usable. */
  datatype Answer<+T> = Returns(value: T) | Raises(exn: Exn, aborts: bool)

  datatype TryAnswer = Granted | Refused | TryRaises(exn: Exn)

  /** The answers to one use of the lock: try, the commit after it, unlock, the last commit. */
  datatype LockAnswers = LockAnswers(try: TryAnswer, commitIn: Option<Exn>, unlock: Option<Exn>, commitOut: Option<Exn>)

  /** One `upgrade`: the commit before it, work before the lock, the nested lock, the scripts.
      `rolledBack` says whether the scripts' own transaction was rolled back when they raised. */
  datatype UpgradeAnswers = UpgradeAnswers(
    commit: Option<Exn>, prepare: Option<Exn>, lock: LockAnswers, scripts: Option<Exn>, rolledBack: bool)

  class Session {
    var tx: TxState
    /** How many times this session holds the lock. */
    var held: nat
    /** An unlock was sent while the transaction was aborted, so the server refused it. */
    var unlockLost: bool
    /** The targets `upgrade` was called with. */
    var upgrades: seq<string>
    ghost var phase: Phase

    constructor (held: nat)
      ensures tx == NoTx && this.held == held && !unlockLost && upgrades == [] && phase == Outside
    {
      tx, this.held, unlockLost, upgrades, phase := NoTx, held, false, [], Outside;
    }

    /** Any collaborator that runs statements on the connection. */
    method Ask<T>(a: Answer<T>, ghost c: Call) returns (r: Answer<T>)
      requires tx != AbortedTx && Advance(phase, c).Some?
      modifies this`tx, this`phase
      ensures r == a
      ensures tx == if a.Raises? && a.aborts then AbortedTx else OpenTx
      ensures phase == if a.Returns? then Advance(old(phase), c).value else old(phase)
    {
      if a.Returns? {
        phase := Advance(phase, c).value;
      }
      tx := if a.Raises? && a.aborts then AbortedTx else OpenTx;
      r := a;
    }

    method CommitTx(e: Option<Exn>) returns (r: Option<Exn>)
      modifies this`tx
      ensures r == e
      ensures tx == if e.None? then NoTx else old(tx)
    {
      if e.None? {
        tx := NoTx;
      }
      r := e;
    }

    method Rollback(e: Option<Exn>) returns (r: Option<Exn>)
      modifies this`tx
      ensures r == e
      ensures tx == if e.None? then NoTx else old(tx)
    {
      if e.None? {
        tx := NoTx;
      }
      r := e;
    }

    /** Entering migration_advisory_lock. A session that holds the lock gets it again. */
    method Enter(a: LockAnswers, nested: bool) returns (e: Option<Exn>)
      requires tx != AbortedTx
      requires phase == if nested then PendingRead else Outside
      requires nested ==> held > 0
      modifies this`tx, this`held, this`phase
      ensures e == EnterRaises(a, old(held))
      ensures held == if TryGets(a, old(held)) then old(held) + 1 else old(held)
      ensures e.None? ==> tx == NoTx && held == old(held) + 1
                          && Some(phase) == Advance(old(phase), if nested then AcquireNested else Acquire)
      ensures e.Some? ==> phase == old(phase) && (tx == AbortedTx <==> a.try.TryRaises?)
    {
      match a.try {
        case TryRaises(x) =>
          tx := AbortedTx;
          return Some(x);
        case Refused =>
          if held == 0 {
            tx := OpenTx;
            return Some(LockUnavailable);
          }
        case Granted =>
      }
      held, tx := held + 1, OpenTx;
      e := CommitTx(a.commitIn);
      if e.None? {
        phase := Advance(phase, if nested then AcquireNested else Acquire).value;
      }
    }

    /** Leaving migration_advisory_lock: unlock, then commit, on every way out. */
    method Exit(a: LockAnswers, nested: bool) returns (e: Option<Exn>)
      requires held > 0
      requires if nested then phase in {Nested, Migrated} else Depth(phase) > 0
      modifies this`tx, this`held, this`unlockLost, this`phase
      ensures unlockLost == (old(unlockLost) || old(tx) == AbortedTx)
      ensures held == if old(tx) != AbortedTx && a.unlock.None? then old(held) - 1 else old(held)
      ensures e == if old(tx) == AbortedTx then Some(OtherError)
                   else if a.unlock.Some? then a.unlock
                   else a.commitOut
      ensures e.None? ==> tx == NoTx
      ensures tx == AbortedTx <==> old(tx) == AbortedTx || a.unlock.Some?
      ensures var next := Advance(old(phase), if nested then ReleaseNested else Release);
              if old(tx) != AbortedTx && a.unlock.None? && next.Some? then tx != AbortedTx && phase == next.value
              else phase == old(phase)
    {
      if tx == AbortedTx {
        unlockLost := true;
        return Some(OtherError);
      }
      if a.unlock.Some? {
        tx := AbortedTx;
        return a.unlock;
      }
      held, tx := held - 1, OpenTx;
      var next := Advance(phase, if nested then ReleaseNested else Release);
      if next.Some? {
        phase := next.value;
      }
      e := CommitTx(a.commitOut);
    }

    /** The `upgrade` collaborator: it closes the open transaction and runs Alembic on the same
        connection, whose environment takes the lock a second time. */
    method Upgrade(target: string, u: UpgradeAnswers) returns (e: Option<Exn>)
      requires held > 0 && tx != AbortedTx && phase == PendingRead
      modifies this
      ensures upgrades == old(upgrades) + [target]
      ensures e == UpgradeRaises(u, old(held))
      ensures e.None? ==> tx == NoTx && phase == NestedReleased
      // The count comes out as it went in exactly if UpgradeKeeps.
      ensures held == old(held) + if UpgradeKeeps(u) then 0 else 1
      ensures unlockLost == (old(unlockLost) || UpgradeLosesUnlock(u))
      ensures tx == AbortedTx <==> UpgradeAborts(u)
      ensures Unwinds(u) ==> Depth(phase) == 1
      ensures phase in {PendingRead, Nested, Migrated, NestedReleased, NestedFailed}
    {
      upgrades := upgrades + [target];
      e := CommitTx(u.commit);
      if e.None? {
        e := u.prepare;
      }
      if e.Some? {
        return;
      }
      e := Enter(u.lock, true);
      if e.Some? {
        return;
      }
      if u.scripts.None? {
        phase := Advance(phase, RunMigrations).value;
      } else if !u.rolledBack {
        tx := AbortedTx;
      }
      var out := Exit(u.lock, true);
      e := if out.Some? then out else u.scripts;
    }
  }

  predicate TryGets(a: LockAnswers, held: nat) {
    a.try.Granted? || (a.try.Refused? && held > 0)
  }

  function EnterRaises(a: LockAnswers, held: nat): Option<Exn> {
    if a.try.TryRaises? then Some(a.try.exn)
    else if a.try.Refused? && held == 0 then Some(LockUnavailable)
    else a.commitIn
  }

  /** What `upgrade` raises on a session that holds the lock `held` times already; an unlock that
      fails hides the scripts' own error. */
  function UpgradeRaises(u: UpgradeAnswers, held: nat): Option<Exn> {
    if u.commit.Some? then u.commit
    else if u.prepare.Some? then u.prepare
    else if EnterRaises(u.lock, held).Some? then EnterRaises(u.lock, held)
    else if u.scripts.Some? && !u.rolledBack then Some(OtherError)
    else if u.lock.unlock.Some? then u.lock.unlock
    else if u.lock.commitOut.Some? then u.lock.commitOut
    else u.scripts
  }

  /** The nested acquisition is reached, and it goes through. */
  predicate RunsScripts(u: UpgradeAnswers) {
    u.commit.None? && u.prepare.None? && !u.lock.try.TryRaises? && u.lock.commitIn.None?
  }

  /** The scripts fail with their transaction still aborted: the nested unlock is refused. */
  predicate UpgradeLosesUnlock(u: UpgradeAnswers) {
    RunsScripts(u) && u.scripts.Some? && !u.rolledBack
  }

  /** Every nested acquisition is given back: none is made, or the unlock goes through. */
  predicate UpgradeKeeps(u: UpgradeAnswers) {
    || u.commit.Some? || u.prepare.Some? || u.lock.try.TryRaises?
    || (u.lock.commitIn.None? && !UpgradeLosesUnlock(u) && u.lock.unlock.None?)
  }

  /** The connection is left with an aborted transaction. */
  predicate UpgradeAborts(u: UpgradeAnswers) {
    || (u.commit.None? && u.prepare.None? && u.lock.try.TryRaises?)
    || UpgradeLosesUnlock(u) || (RunsScripts(u) && u.lock.unlock.Some?)
  }

  /** Lock statements and commits succeed and failed scripts are rolled back. */
  predicate LockWorks(a: LockAnswers) {
    a.commitIn.None? && a.unlock.None? && a.commitOut.None?
  }

  predicate Unwinds(u: UpgradeAnswers) {
    LockWorks(u.lock) && (u.scripts.Some? ==> u.rolledBack)
  }

  /** Taking the lock again on the session that holds it cannot conflict. The exception for a
      conflict comes out of an upgrade whose other parts do not raise it exactly if the session did
      not hold the lock and another one does. */
  lemma NestedNeverConflicts(u: UpgradeAnswers, held: nat)
    requires Some(LockUnavailable) !in
      {u.commit, u.prepare, u.scripts, u.lock.commitIn, u.lock.unlock, u.lock.commitOut}
    requires u.lock.try != TryRaises(LockUnavailable)
    ensures UpgradeRaises(u, held) == Some(LockUnavailable) <==>
            held == 0 && u.lock.try.Refused? && u.commit.None? && u.prepare.None?
  {
  }
}
