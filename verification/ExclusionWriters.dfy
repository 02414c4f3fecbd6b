/** How results are written: one insert in a savepoint of its own, skipping a taken key and going back if the
    trigger raises. Whatever the transaction has done before, the insert either gives it the row or leaves it
    as it was, and it can go on. */
module ExclusionWriters {
  import opened ExclusionModel
  import opened ExclusionLaws
  import opened ExclusionRaces

  /** Nobody else is there, and the transaction is between two statements. */
  predicate Alone(s: State, t: Tx) {
    s.txs.Keys == {t} && s.txs[t].stage.Idle? && forall l <- s.locks :: l.tx == t
  }

  function Sees(s: State, t: Tx): Rows
    requires t in s.txs
  {
    View(s.committed, s.txs[t])
  }

  lemma AnyRow(rows: Rows, t: Table, parent: nat, self: Key)
    ensures HasRow(rows, t, parent, self) <==> exists k <- rows :: k.table == t && rows[k] == parent && k != self
  {
  }

  lemma OneStep(s: State, e: Event, s2: State)
    requires Next(Locking, s, e, s2)
    ensures RunTo(Locking, s, [e], s2)
  {
    assert RunTo(Locking, s2, [], s2);
    Prepend(Locking, s, e, s2, [], s2);
    assert [e] + [] == [e];
  }

  // ---- The steps ------------------------------------------------------------------------------------

  function With(s: State, t: Tx, x: TxState, locks: set<Lock>): State {
    State(s.committed, s.txs[t := x], locks)
  }

  function Marked(s: State, t: Tx): seq<Save>
    requires t in s.txs
  {
    s.txs[t].saves + [Save(s.txs[t].written, s.txs[t].deleted, s.txs[t].ops, LocksOf(s.locks, t))]
  }

  /** The state at a stage of the insert, in the savepoint set before it. */
  function At(s: State, t: Tx, stage: Stage, locks: set<Lock>): State
    requires t in s.txs
  {
    With(s, t, s.txs[t].(saves := Marked(s, t), stage := stage), locks)
  }

  lemma SetsSavepoint(s: State, t: Tx)
    requires Alone(s, t)
    ensures Next(Locking, s, Savepoint(t), At(s, t, Idle, s.locks))
  {
    assert s.locks + {} == s.locks;
  }

  lemma Starts(s: State, t: Tx, k: Key, parent: nat)
    requires Alone(s, t) && IsChild(k)
    ensures Next(Locking, At(s, t, Idle, s.locks), StartInsert(t, k, parent),
                 At(s, t, Started(Write(k, parent, false)), s.locks))
  {
    assert s.locks + {} == s.locks;
  }

  lemma SeesTheSame(s: State, t: Tx, stage: Stage, locks: set<Lock>)
    requires t in s.txs
    ensures Sees(At(s, t, stage, locks), t) == Sees(s, t)
  {
  }

  lemma LocksParent(s: State, t: Tx, w: Write)
    requires Alone(s, t) && ParentKey(w.key.table, w.parent) in Sees(s, t)
    ensures Next(Locking, At(s, t, Started(w), s.locks), LockParent(t), At(s, t, Locked(w, true), AndParent(s, t, w)))
  {
    SeesTheSame(s, t, Started(w), s.locks);
  }

  function AndParent(s: State, t: Tx, w: Write): set<Lock> {
    s.locks + {Lock(t, ParentKey(w.key.table, w.parent), NoKeyUpdate)}
  }

  lemma Checks(s: State, t: Tx, w: Write, locks: set<Lock>)
    requires t in s.txs
    ensures Next(Locking, At(s, t, Locked(w, true), locks), CheckOpposite(t),
                 At(s, t, if exists j <- Sees(s, t) :: j.table == Opposite(w.key.table) && Sees(s, t)[j] == w.parent
                                                       && j != w.key
                          then Failed else Checked(w, true), locks))
  {
    SeesTheSame(s, t, Locked(w, true), locks);
    AnyRow(Sees(s, t), Opposite(w.key.table), w.parent, w.key);
    assert locks + {} == locks;
  }

  lemma Writes(s: State, t: Tx, w: Write)
    requires Alone(s, t) && Unused(s, w.key) && IsChild(w.key) && !w.update && w.key !in Sees(s, t)
    requires ParentKey(w.key.table, w.parent) in Sees(s, t)
    requires forall j <- Sees(s, t) :: j.table == w.key.table ==> Sees(s, t)[j] != w.parent
    ensures var s4 := At(s, t, Checked(w, true), AndParent(s, t, w));
            && Enabled(Locking, s4, WriteRow(t))
            && var s5 := Apply(Locking, s4, WriteRow(t));
               && s5.committed == s.committed && t in s5.txs && s5.txs.Keys == {t} && s5.txs[t].stage == Idle
               && s5.txs[t].saves == Marked(s, t) && Sees(s5, t) == Sees(s, t)[w.key := w.parent]
               && forall l <- s5.locks :: l.tx == t
  {
    var s4 := At(s, t, Checked(w, true), AndParent(s, t, w));
    SeesTheSame(s, t, Checked(w, true), AndParent(s, t, w));
    assert Unused(s4, w.key) by {
      assert ParentKey(w.key.table, w.parent).table != w.key.table;
    }
    assert Enabled(Locking, s4, WriteRow(t));
    WriteLaw(Locking, s4, t);
  }

  lemma Releases(s: State, t: Tx, s5: State)
    requires t in s.txs && t in s5.txs && s5.txs[t].stage.Idle? && s5.txs[t].saves == Marked(s, t)
    ensures Next(Locking, s5, Release(t), With(s5, t, s5.txs[t].(saves := s.txs[t].saves), s5.locks))
  {
    assert Marked(s, t)[..|Marked(s, t)| - 1] == s.txs[t].saves;
    assert s5.locks + {} == s5.locks;
  }

  lemma GoesBack(s: State, t: Tx, w: Write)
    requires Alone(s, t)
    ensures Next(Locking, At(s, t, Failed, AndParent(s, t, w)), RollbackTo(t), At(s, t, Idle, s.locks))
  {
    var s4 := At(s, t, Failed, AndParent(s, t, w));
    var last := Marked(s, t)[|Marked(s, t)| - 1];
    assert BackTo(s4.txs[t]) == s.txs[t].(saves := Marked(s, t));
    assert LocksBackTo(s4.locks, t, s4.txs[t]) == s.locks by {
      assert last.kept == LocksOf(s.locks, t);
    }
  }

  lemma Skips(s: State, t: Tx, w: Write)
    requires Alone(s, t) && !w.update
    requires exists j <- Sees(s, t) :: j.table == w.key.table && Sees(s, t)[j] == w.parent && j != w.key
    ensures Next(Locking, At(s, t, Checked(w, true), AndParent(s, t, w)), SkipRow(t),
                 At(s, t, Idle, AndParent(s, t, w)))
  {
    SeesTheSame(s, t, Checked(w, true), AndParent(s, t, w));
    AnyRow(Sees(s, t), w.key.table, w.parent, w.key);
    assert AndParent(s, t, w) + {} == AndParent(s, t, w);
  }

  predicate Blocked(s: State, t: Tx, w: Write)
    requires t in s.txs
  {
    exists j <- Sees(s, t) :: j.table == Opposite(w.key.table) && Sees(s, t)[j] == w.parent && j != w.key
  }

  /** Up to the check of the trigger. */
  lemma Begins(s: State, t: Tx, k: Key, parent: nat)
    requires Alone(s, t) && IsChild(k) && ParentKey(k.table, parent) in Sees(s, t)
    ensures var w := Write(k, parent, false);
            RunTo(Locking, s, [Savepoint(t), StartInsert(t, k, parent)] + [LockParent(t), CheckOpposite(t)],
                  At(s, t, if Blocked(s, t, w) then Failed else Checked(w, true), AndParent(s, t, w)))
  {
    var w := Write(k, parent, false);
    var s1, s2 := At(s, t, Idle, s.locks), At(s, t, Started(w), s.locks);
    var s3 := At(s, t, Locked(w, true), AndParent(s, t, w));
    var s4 := At(s, t, if Blocked(s, t, w) then Failed else Checked(w, true), AndParent(s, t, w));
    SetsSavepoint(s, t);
    Starts(s, t, k, parent);
    LocksParent(s, t, w);
    Checks(s, t, w, AndParent(s, t, w));
    TwoSteps(Locking, s, Savepoint(t), s1, StartInsert(t, k, parent), s2);
    TwoSteps(Locking, s2, LockParent(t), s3, CheckOpposite(t), s4);
    Join(Locking, s, [Savepoint(t), StartInsert(t, k, parent)], s2, [LockParent(t), CheckOpposite(t)], s4);
  }

  lemma Ends(s: State, first: seq<Event>, s4: State, e: Event, s5: State, t: Tx, s6: State)
    requires RunTo(Locking, s, first, s4) && Next(Locking, s4, e, s5) && Next(Locking, s5, Release(t), s6)
    ensures RunTo(Locking, s, first + [e, Release(t)], s6)
  {
    TwoSteps(Locking, s4, e, s5, Release(t), s6);
    Join(Locking, s, first, s4, [e, Release(t)], s6);
  }

  // ---- The three outcomes -----------------------------------------------------------------------------

  function Saving(t: Tx, k: Key, parent: nat): seq<Event> {
    [Savepoint(t), StartInsert(t, k, parent)] + [LockParent(t), CheckOpposite(t)] + [WriteRow(t), Release(t)]
  }

  /** No row in either table of the pair: the transaction has the row afterwards, whatever else it has done and
      however many savepoints it is in. */
  lemma ResultIsSaved(s: State, t: Tx, k: Key, parent: nat)
    requires Alone(s, t) && IsChild(k) && Unused(s, k) && ParentKey(k.table, parent) in Sees(s, t)
    requires k !in Sees(s, t)
    requires forall j <- Sees(s, t) :: j.table in {k.table, Opposite(k.table)} ==> Sees(s, t)[j] != parent
    ensures IsRun(Locking, s, Saving(t, k, parent))
    ensures var last := After(Locking, s, Saving(t, k, parent));
            Alone(last, t) && Sees(last, t) == Sees(s, t)[k := parent] && last.txs[t].saves == s.txs[t].saves
  {
    var w := Write(k, parent, false);
    Begins(s, t, k, parent);
    Writes(s, t, w);
    var s5 := Apply(Locking, At(s, t, Checked(w, true), AndParent(s, t, w)), WriteRow(t));
    Releases(s, t, s5);
    Ends(s, [Savepoint(t), StartInsert(t, k, parent)] + [LockParent(t), CheckOpposite(t)],
         At(s, t, Checked(w, true), AndParent(s, t, w)), WriteRow(t), s5, t,
         With(s5, t, s5.txs[t].(saves := s.txs[t].saves), s5.locks));
  }

  function Refused(t: Tx, k: Key, parent: nat): seq<Event> {
    [Savepoint(t), StartInsert(t, k, parent)] + [LockParent(t), CheckOpposite(t)] + [RollbackTo(t), Release(t)]
  }

  /** A row in the other table of the pair: the trigger raises, and after going back to the savepoint the
      transaction is exactly as it was, its locks included, and can go on. */
  lemma ResultIsRefused(s: State, t: Tx, k: Key, parent: nat, j: Key)
    requires Alone(s, t) && IsChild(k) && ParentKey(k.table, parent) in Sees(s, t)
    requires j in Sees(s, t) && j.table == Opposite(k.table) && Sees(s, t)[j] == parent && j != k
    ensures IsRun(Locking, s, Refused(t, k, parent)) && After(Locking, s, Refused(t, k, parent)) == s
  {
    var w := Write(k, parent, false);
    Begins(s, t, k, parent);
    GoesBack(s, t, w);
    var s5 := At(s, t, Idle, s.locks);
    Releases(s, t, s5);
    var s6 := With(s5, t, s5.txs[t].(saves := s.txs[t].saves), s5.locks);
    assert s6.txs == s.txs;
    Ends(s, [Savepoint(t), StartInsert(t, k, parent)] + [LockParent(t), CheckOpposite(t)],
         At(s, t, Failed, AndParent(s, t, w)), RollbackTo(t), s5, t, s6);
  }

  function Skipped(t: Tx, k: Key, parent: nat): seq<Event> {
    [Savepoint(t), StartInsert(t, k, parent)] + [LockParent(t), CheckOpposite(t)] + [SkipRow(t), Release(t)]
  }

  /** A row in the same table: the statement ends without a row, and the transaction sees what it saw. */
  lemma ResultIsSkipped(s: State, t: Tx, k: Key, parent: nat, j: Key)
    requires Alone(s, t) && IsChild(k) && ParentKey(k.table, parent) in Sees(s, t)
    requires j in Sees(s, t) && j.table == k.table && Sees(s, t)[j] == parent && j != k
    requires forall i <- Sees(s, t) :: i.table == Opposite(k.table) ==> Sees(s, t)[i] != parent
    ensures IsRun(Locking, s, Skipped(t, k, parent))
    ensures After(Locking, s, Skipped(t, k, parent))
            == s.(locks := s.locks + {Lock(t, ParentKey(k.table, parent), NoKeyUpdate)})
  {
    var w := Write(k, parent, false);
    Begins(s, t, k, parent);
    Skips(s, t, w);
    var s5 := At(s, t, Idle, AndParent(s, t, w));
    Releases(s, t, s5);
    var s6 := With(s5, t, s5.txs[t].(saves := s.txs[t].saves), s5.locks);
    assert s6.txs == s.txs;
    Ends(s, [Savepoint(t), StartInsert(t, k, parent)] + [LockParent(t), CheckOpposite(t)],
         At(s, t, Checked(w, true), AndParent(s, t, w)), SkipRow(t), s5, t, s6);
  }
}
