/** The invariant of the locking protocol, and what follows from it for every run. */
module ExclusionSafety {
  import opened Prelude
  import opened ExclusionModel
  import opened ExclusionSerial

  // ---- Invariant -------------------------------------------------------------------------

  ghost predicate LocksCompatible(locks: set<Lock>) {
    forall a, b :: a in locks && b in locks && a.key == b.key && a.tx != b.tx ==> !Conflict(a.mode, b.mode)
  }

  ghost predicate HoldsParent(locks: set<Lock>, t: Tx, k: Key, parent: nat) {
    && Lock(t, ParentKey(k.table, parent), NoKeyUpdate) in locks
    && Lock(t, ParentKey(k.table, parent), KeyShare) in locks
  }

  /** A statement's locks: its own row, and for a child row the parent too. */
  ghost predicate OpLocks(locks: set<Lock>, t: Tx, op: Op) {
    && Lock(t, op.key, Update) in locks
    && (op.NewArticle? ==> op.key.table == Article)
    && (op.Insert? || op.Change? ==> IsChild(op.key) && HoldsParent(locks, t, op.key, op.parent))
  }

  ghost predicate StageOk(committed: Rows, locks: set<Lock>, t: Tx, x: TxState) {
    match x.stage
    case Idle => true
    case Failed => true
    case Started(w) => StartedOk(committed, locks, t, x, w)
    case Locked(w, found) => StartedOk(committed, locks, t, x, w) && (found ==> ParentLocked(locks, t, w))
    case Checked(w, found) =>
      && StartedOk(committed, locks, t, x, w)
      && (found ==> ParentLocked(locks, t, w) &&
                    !HasRow(View(committed, x), Opposite(w.key.table), w.parent, w.key))
  }

  ghost predicate StartedOk(committed: Rows, locks: set<Lock>, t: Tx, x: TxState, w: Write) {
    && IsChild(w.key)
    && (w.update ==> Lock(t, w.key, Update) in locks && w.key in View(committed, x))
  }

  ghost predicate ParentLocked(locks: set<Lock>, t: Tx, w: Write) {
    Lock(t, ParentKey(w.key.table, w.parent), NoKeyUpdate) in locks
  }

  /** What is known of one transaction. The last line is the heart of it: run alone from the
      rows committed by now, the transaction's statements all succeed and give its view. */
  ghost predicate TxOk(committed: Rows, locks: set<Lock>, t: Tx, x: TxState) {
    && (forall op <- x.ops :: OpLocks(locks, t, op))
    && (x.written, x.deleted) == Net(x.ops)
    && (forall op <- x.ops :: op.Delete? ==> op.key in x.deleted)
    && (forall k <- x.written :: Lock(t, k, Update) in locks &&
          (IsChild(k) ==> HoldsParent(locks, t, k, x.written[k])))
    && (forall k <- x.deleted :: Lock(t, k, Update) in locks)
    && StageOk(committed, locks, t, x)
    && SerialTx(committed, x.ops) == Some(View(committed, x))
  }

  /** Going back to a savepoint gives a transaction that is as good, with the locks it had then. */
  ghost predicate SaveOk(committed: Rows, locks: set<Lock>, t: Tx, v: Save) {
    && v.kept <= locks && (forall l <- v.kept :: l.tx == t)
    && TxOk(committed, v.kept, t, Saved(v))
  }

  ghost predicate SavesOk(committed: Rows, locks: set<Lock>, t: Tx, saves: seq<Save>) {
    && (forall v <- saves :: SaveOk(committed, locks, t, v))
    && (forall i, j :: 0 <= i < j < |saves| ==> saves[i].kept <= saves[j].kept)
  }

  ghost predicate Inv(s: State) {
    && Sound(s.committed)
    && LocksCompatible(s.locks)
    && (forall t <- s.txs :: TxOk(s.committed, s.locks, t, s.txs[t]))
    && (forall t <- s.txs :: SavesOk(s.committed, s.locks, t, s.txs[t].saves))
  }

  // ---- A commit does not disturb the others -------------------------------------------------

  /** `d2` differs from `d` only where transaction `t` holds no lock. */
  ghost predicate Agrees(locks: set<Lock>, t: Tx, d: Rows, d2: Rows) {
    && (forall k :: Lock(t, k, Update) in locks ==>
          (k in d <==> k in d2) && (k in d ==> d[k] == d2[k]))
    && (forall k <- d2 :: IsChild(k) && Lock(t, ParentKey(k.table, d2[k]), NoKeyUpdate) in locks ==>
          k in d && d[k] == d2[k])
    && (forall k <- d :: Lock(t, k, KeyShare) in locks ==> k in d2)
  }

  lemma SerialOpAgrees(locks: set<Lock>, t: Tx, d: Rows, d2: Rows, op: Op)
    requires Agrees(locks, t, d, d2) && OpLocks(locks, t, op)
    requires SerialOp(d, op).Some?
    ensures SerialOp(d2, op).Some?
    ensures Agrees(locks, t, SerialOp(d, op).value, SerialOp(d2, op).value)
  {
    if op.Insert? || op.Change? {
      assert MayPlace(d2, op.key, op.parent);
    }
  }

  lemma {:induction false} SerialTxAgrees(locks: set<Lock>, t: Tx, d: Rows, d2: Rows, ops: seq<Op>)
    requires Agrees(locks, t, d, d2) && (forall op <- ops :: OpLocks(locks, t, op))
    requires SerialTx(d, ops).Some?
    ensures SerialTx(d2, ops).Some?
    ensures Agrees(locks, t, SerialTx(d, ops).value, SerialTx(d2, ops).value)
  {
    if ops != [] {
      var front := ops[..|ops| - 1];
      SerialTxAgrees(locks, t, d, d2, front);
      SerialOpAgrees(locks, t, SerialTx(d, front).value, SerialTx(d2, front).value, ops[|ops| - 1]);
    }
  }

  /** Locks keep what another transaction commits away from everything `u` depends on. */
  lemma CommitAgrees(committed: Rows, locks: set<Lock>, t: Tx, x: TxState, u: Tx)
    requires LocksCompatible(locks) && t != u
    requires TxOk(committed, locks, t, x)
    ensures Agrees(locks, u, committed, View(committed, x))
  {
  }

  /** `kept` are the locks on which what is known of `u` rests. */
  lemma CommitKeepsOther(committed: Rows, locks: set<Lock>, t: Tx, x: TxState, kept: set<Lock>, u: Tx, y: TxState)
    requires LocksCompatible(locks) && t != u && kept <= locks
    requires TxOk(committed, locks, t, x) && TxOk(committed, kept, u, y)
    ensures TxOk(View(committed, x), kept, u, y)
  {
    var c2 := View(committed, x);
    CommitAgrees(committed, locks, t, x, u);
    assert Agrees(kept, u, committed, c2);
    SerialTxAgrees(kept, u, committed, c2, y.ops);
    SerialNet(c2, y.ops);
    assert SerialTx(c2, y.ops) == Some(View(c2, y));
    StageAgrees(kept, u, committed, c2, y);
  }

  /** What the current statement has found out stays true. */
  lemma StageAgrees(kept: set<Lock>, u: Tx, committed: Rows, c2: Rows, y: TxState)
    requires StageOk(committed, kept, u, y) && Agrees(kept, u, View(committed, y), View(c2, y))
    ensures StageOk(c2, kept, u, y)
  {
  }

  /** Locks of other transactions do not matter to `t`. */
  lemma MoreLocks(committed: Rows, locks: set<Lock>, more: set<Lock>, t: Tx, x: TxState)
    requires TxOk(committed, locks, t, x)
    requires forall l <- locks :: l.tx == t ==> l in more
    ensures TxOk(committed, more, t, x)
  {
    forall op | op in x.ops
      ensures OpLocks(more, t, op)
    {
      assert OpLocks(locks, t, op);
    }
  }

  lemma FewerSaves(committed: Rows, locks: set<Lock>, more: set<Lock>, t: Tx, saves: seq<Save>)
    requires SavesOk(committed, locks, t, saves)
    requires forall l <- locks :: l.tx == t ==> l in more
    ensures SavesOk(committed, more, t, saves)
  {
    forall v | v in saves
      ensures SaveOk(committed, more, t, v)
    {
      assert SaveOk(committed, locks, t, v);
    }
  }

  lemma CommitKeepsSaves(committed: Rows, locks: set<Lock>, t: Tx, x: TxState, u: Tx, saves: seq<Save>)
    requires LocksCompatible(locks) && t != u
    requires TxOk(committed, locks, t, x) && SavesOk(committed, locks, u, saves)
    ensures SavesOk(View(committed, x), locks, u, saves)
  {
    forall v | v in saves
      ensures SaveOk(View(committed, x), locks, u, v)
    {
      assert SaveOk(committed, locks, u, v);
      CommitKeepsOther(committed, locks, t, x, v.kept, u, Saved(v));
    }
  }

  // ---- Steps keep the invariant -------------------------------------------------------------

  lemma AddLocks(locks: set<Lock>, more: set<Lock>, t: Tx)
    requires LocksCompatible(locks)
    requires forall l <- more :: l.tx == t && Free(locks, t, l.key, l.mode)
    ensures LocksCompatible(locks + more)
  {
  }

  lemma NewLocksCompatible(s: State, e: Event, x: TxState)
    requires LocksCompatible(s.locks) && StageOk(s.committed, s.locks, e.tx, x)
    requires e.tx in s.txs && x == s.txs[e.tx] && EnabledIn(Locking, s, e, x)
    ensures LocksCompatible(s.locks + NewLocks(s, e, x))
  {
    forall l | l in NewLocks(s, e, x)
      ensures l.tx == e.tx && Free(s.locks, e.tx, l.key, l.mode)
    {
      if e.WriteRow? && l.mode.Update? && x.stage.w.update {
        assert Lock(e.tx, l.key, Update) in s.locks;
      }
    }
    AddLocks(s.locks, NewLocks(s, e, x), e.tx);
  }

  /** One more statement that succeeds against the transaction's own view. */
  lemma StatementKeepsTx(committed: Rows, locks: set<Lock>, t: Tx, x: TxState, op: Op, y: TxState)
    requires TxOk(committed, locks, t, x) && OpLocks(locks, t, op)
    requires SerialOp(View(committed, x), op).Some?
    requires y.ops == x.ops + [op] && (y.written, y.deleted) == Net(y.ops) && y.stage.Idle?
    ensures TxOk(committed, locks, t, y)
  {
    NetAppend(x.ops, op);
    SerialAppend(committed, x.ops, op);
    SerialNet(committed, y.ops);
    assert SerialTx(committed, y.ops) == Some(View(committed, y));
  }

  lemma PlacedSucceeds(view: Rows, w: Write)
    requires IsChild(w.key) && WriteSucceeds(view, w) && !HasRow(view, Opposite(w.key.table), w.parent, w.key)
    requires !w.update ==> w.key !in view
    ensures SerialOp(view, if w.update then Change(w.key, w.parent) else Insert(w.key, w.parent)).Some?
  {
    assert MayPlace(view, w.key, w.parent);
  }

  lemma PlacedKeepsTx(committed: Rows, locks: set<Lock>, t: Tx, x: TxState, w: Write, y: TxState)
    requires TxOk(committed, locks, t, x) && x.stage == Checked(w, true) && WriteSucceeds(View(committed, x), w)
    requires Lock(t, w.key, Update) in locks && HoldsParent(locks, t, w.key, w.parent)
    requires !w.update ==> w.key !in View(committed, x)
    requires y == TxState(x.written[w.key := w.parent], x.deleted,
                          x.ops + [if w.update then Change(w.key, w.parent) else Insert(w.key, w.parent)], Idle,
                          x.saves)
    ensures TxOk(committed, locks, t, y)
  {
    var op := if w.update then Change(w.key, w.parent) else Insert(w.key, w.parent);
    NetAppend(x.ops, op);
    PlacedSucceeds(View(committed, x), w);
    StatementKeepsTx(committed, locks, t, x, op, y);
  }

  lemma WriteKeepsTx(s: State, e: Event, x: TxState)
    requires e.tx in s.txs && x == s.txs[e.tx] && TxOk(s.committed, s.locks, e.tx, x)
    requires e.WriteRow? && EnabledIn(Locking, s, e, x) && !WritesUnlocked(s, e)
    ensures TxOk(s.committed, s.locks + NewLocks(s, e, x), e.tx, ApplyIn(s, e, x))
  {
    var locks := s.locks + NewLocks(s, e, x);
    MoreLocks(s.committed, s.locks, locks, e.tx, x);
    var view, w, y := View(s.committed, x), x.stage.w, ApplyIn(s, e, x);
    if WriteSucceeds(view, w) {
      assert !w.update ==> w.key !in view;
      PlacedKeepsTx(s.committed, locks, e.tx, x, w, y);
    }
  }

  lemma DeleteKeepsTx(s: State, e: Event, x: TxState)
    requires e.tx in s.txs && x == s.txs[e.tx] && TxOk(s.committed, s.locks, e.tx, x)
    requires e.DeleteRow? && EnabledIn(Locking, s, e, x)
    ensures TxOk(s.committed, s.locks + NewLocks(s, e, x), e.tx, ApplyIn(s, e, x))
  {
    var locks := s.locks + NewLocks(s, e, x);
    MoreLocks(s.committed, s.locks, locks, e.tx, x);
    NetAppend(x.ops, Delete(e.key));
    StatementKeepsTx(s.committed, locks, e.tx, x, Delete(e.key), ApplyIn(s, e, x));
  }

  lemma CreateKeepsTx(s: State, e: Event, x: TxState)
    requires e.tx in s.txs && x == s.txs[e.tx] && TxOk(s.committed, s.locks, e.tx, x)
    requires e.CreateArticle? && EnabledIn(Locking, s, e, x)
    ensures TxOk(s.committed, s.locks + NewLocks(s, e, x), e.tx, ApplyIn(s, e, x))
  {
    var locks, key := s.locks + NewLocks(s, e, x), Key(Article, e.id);
    MoreLocks(s.committed, s.locks, locks, e.tx, x);
    assert key !in x.written;
    NetAppend(x.ops, NewArticle(key));
    StatementKeepsTx(s.committed, locks, e.tx, x, NewArticle(key), ApplyIn(s, e, x));
  }

  lemma StageKeepsTx(s: State, e: Event, x: TxState)
    requires e.tx in s.txs && x == s.txs[e.tx] && TxOk(s.committed, s.locks, e.tx, x)
    requires e.StartInsert? || e.StartUpdate? || e.LockParent? || e.CheckOpposite? || e.SkipRow? || e.Savepoint?
             || e.Release?
    requires EnabledIn(Locking, s, e, x)
    ensures TxOk(s.committed, s.locks + NewLocks(s, e, x), e.tx, ApplyIn(s, e, x))
  {
    MoreLocks(s.committed, s.locks, s.locks + NewLocks(s, e, x), e.tx, x);
  }

  lemma OwnStepKeepsTx(s: State, e: Event, x: TxState)
    requires e.tx in s.txs && x == s.txs[e.tx] && TxOk(s.committed, s.locks, e.tx, x)
    requires EnabledIn(Locking, s, e, x) && !WritesUnlocked(s, e)
    requires !e.Begin? && !e.Commit? && !e.Abort? && !e.RollbackTo?
    ensures TxOk(s.committed, s.locks + NewLocks(s, e, x), e.tx, ApplyIn(s, e, x))
  {
    match e
    case CreateArticle(_, _) => CreateKeepsTx(s, e, x);
    case WriteRow(_) => WriteKeepsTx(s, e, x);
    case DeleteRow(_, _) => DeleteKeepsTx(s, e, x);
    case _ => StageKeepsTx(s, e, x);
  }

  lemma CommitKeeps(s: State, e: Event)
    requires Inv(s) && Enabled(Locking, s, e) && e.Commit?
    ensures Inv(Apply(Locking, s, e))
  {
    var x := s.txs[e.tx];
    var s2 := Apply(Locking, s, e);
    SerialTxSound(s.committed, x.ops, x.deleted);
    forall u | u in s2.txs
      ensures TxOk(s2.committed, s2.locks, u, s2.txs[u])
    {
      CommitKeepsOther(s.committed, s.locks, e.tx, x, s.locks, u, s.txs[u]);
      MoreLocks(s2.committed, s.locks, s2.locks, u, s.txs[u]);
    }
    forall u | u in s2.txs
      ensures SavesOk(s2.committed, s2.locks, u, s2.txs[u].saves)
    {
      CommitKeepsSaves(s.committed, s.locks, e.tx, x, u, s.txs[u].saves);
      FewerSaves(s2.committed, s.locks, s2.locks, u, s.txs[u].saves);
    }
  }

  /** A step of `t` that drops some of its own locks is nothing to the others. */
  lemma OthersKeep(s: State, s2: State, t: Tx)
    requires Inv(s) && s2.committed == s.committed
    requires forall u <- s2.txs :: u != t ==> u in s.txs && s2.txs[u] == s.txs[u]
    requires forall l <- s.locks :: l.tx != t ==> l in s2.locks
    ensures forall u <- s2.txs :: u != t ==> TxOk(s2.committed, s2.locks, u, s2.txs[u])
    ensures forall u <- s2.txs :: u != t ==> SavesOk(s2.committed, s2.locks, u, s2.txs[u].saves)
  {
    forall u | u in s2.txs && u != t
      ensures TxOk(s2.committed, s2.locks, u, s2.txs[u]) && SavesOk(s2.committed, s2.locks, u, s2.txs[u].saves)
    {
      MoreLocks(s.committed, s.locks, s2.locks, u, s.txs[u]);
      FewerSaves(s.committed, s.locks, s2.locks, u, s.txs[u].saves);
    }
  }

  /** So a step of `t` that commits nothing only has to look after `t`. */
  lemma OnlyOneChanged(s: State, s2: State, t: Tx)
    requires Inv(s) && s2.committed == s.committed && LocksCompatible(s2.locks)
    requires forall u <- s2.txs :: u != t ==> u in s.txs && s2.txs[u] == s.txs[u]
    requires forall l <- s.locks :: l.tx != t ==> l in s2.locks
    requires t in s2.txs ==> TxOk(s2.committed, s2.locks, t, s2.txs[t])
    requires t in s2.txs ==> SavesOk(s2.committed, s2.locks, t, s2.txs[t].saves)
    ensures Inv(s2)
  {
    OthersKeep(s, s2, t);
  }

  lemma BeginKeeps(s: State, e: Event)
    requires Inv(s) && Enabled(Locking, s, e) && e.Begin?
    ensures Inv(Apply(Locking, s, e))
  {
    assert View(s.committed, NEW) == s.committed;
    OnlyOneChanged(s, Apply(Locking, s, e), e.tx);
  }

  lemma AbortKeeps(s: State, e: Event)
    requires Inv(s) && Enabled(Locking, s, e) && e.Abort?
    ensures Inv(Apply(Locking, s, e))
  {
    OnlyOneChanged(s, Apply(Locking, s, e), e.tx);
  }

  lemma BackToKeepsSaves(committed: Rows, locks: set<Lock>, t: Tx, x: TxState)
    requires SavesOk(committed, locks, t, x.saves) && x.saves != []
    ensures SavesOk(committed, LocksBackTo(locks, t, x), t, x.saves)
  {
    var last := x.saves[|x.saves| - 1];
    forall v | v in x.saves
      ensures SaveOk(committed, LocksBackTo(locks, t, x), t, v)
    {
      assert SaveOk(committed, locks, t, v);
      var i :| 0 <= i < |x.saves| && x.saves[i] == v;
      assert v.kept <= last.kept;
    }
  }

  lemma BackToKeepsTx(committed: Rows, locks: set<Lock>, t: Tx, x: TxState)
    requires SavesOk(committed, locks, t, x.saves) && x.saves != []
    ensures TxOk(committed, LocksBackTo(locks, t, x), t, BackTo(x))
  {
    var last := x.saves[|x.saves| - 1];
    assert SaveOk(committed, locks, t, last);
    SavesDoNotMatter(committed, last.kept, t, Saved(last), x.saves);
    MoreLocks(committed, last.kept, LocksBackTo(locks, t, x), t, BackTo(x));
  }

  lemma SavesDoNotMatter(committed: Rows, locks: set<Lock>, t: Tx, x: TxState, saves: seq<Save>)
    requires TxOk(committed, locks, t, x)
    ensures TxOk(committed, locks, t, x.(saves := saves))
  {
  }

  lemma RollbackKeeps(s: State, e: Event)
    requires Inv(s) && Enabled(Locking, s, e) && e.RollbackTo?
    ensures Inv(Apply(Locking, s, e))
  {
    BackToKeepsTx(s.committed, s.locks, e.tx, s.txs[e.tx]);
    BackToKeepsSaves(s.committed, s.locks, e.tx, s.txs[e.tx]);
    OnlyOneChanged(s, Apply(Locking, s, e), e.tx);
  }

  /** A new savepoint holds what the transaction has now. */
  lemma SavepointKeepsSaves(committed: Rows, locks: set<Lock>, t: Tx, x: TxState)
    requires TxOk(committed, locks, t, x) && SavesOk(committed, locks, t, x.saves)
    ensures SavesOk(committed, locks, t, x.saves + [Save(x.written, x.deleted, x.ops, LocksOf(locks, t))])
  {
    var v := Save(x.written, x.deleted, x.ops, LocksOf(locks, t));
    MoreLocks(committed, locks, v.kept, t, x);
    assert SaveOk(committed, locks, t, v);
    forall o | o in x.saves
      ensures SaveOk(committed, locks, t, o) && o.kept <= v.kept
    {
      assert SaveOk(committed, locks, t, o);
    }
  }

  lemma OwnStepKeepsSaves(s: State, e: Event, x: TxState)
    requires e.tx in s.txs && x == s.txs[e.tx] && TxOk(s.committed, s.locks, e.tx, x)
    requires SavesOk(s.committed, s.locks, e.tx, x.saves) && EnabledIn(Locking, s, e, x)
    requires !e.Begin? && !e.Commit? && !e.Abort? && !e.RollbackTo?
    ensures SavesOk(s.committed, s.locks + NewLocks(s, e, x), e.tx, ApplyIn(s, e, x).saves)
  {
    if e.Savepoint? {
      SavepointKeepsSaves(s.committed, s.locks, e.tx, x);
    }
    FewerSaves(s.committed, s.locks, s.locks + NewLocks(s, e, x), e.tx, ApplyIn(s, e, x).saves);
  }

  /** Every step keeps the invariant, unless it writes a row whose parent was not there to lock. */
  lemma StepKeeps(s: State, e: Event)
    requires Inv(s) && Enabled(Locking, s, e) && !WritesUnlocked(s, e)
    ensures Inv(Apply(Locking, s, e))
  {
    match e
    case Begin(_) => BeginKeeps(s, e);
    case Commit(_) => CommitKeeps(s, e);
    case Abort(_) => AbortKeeps(s, e);
    case RollbackTo(_) => RollbackKeeps(s, e);
    case _ => OwnStepKeeps(s, e);
  }

  lemma OwnStepKeeps(s: State, e: Event)
    requires Inv(s) && Enabled(Locking, s, e) && !WritesUnlocked(s, e)
    requires !e.Begin? && !e.Commit? && !e.Abort? && !e.RollbackTo?
    ensures Inv(Apply(Locking, s, e))
  {
    var x, s2 := s.txs[e.tx], Apply(Locking, s, e);
    assert StageOk(s.committed, s.locks, e.tx, x) by {
      assert TxOk(s.committed, s.locks, e.tx, x);
    }
    NewLocksCompatible(s, e, x);
    OwnStepKeepsTx(s, e, x);
    OwnStepKeepsSaves(s, e, x);
    OnlyOneChanged(s, s2, e.tx);
  }

  // ---- Whole runs ----------------------------------------------------------------------------

  lemma {:induction false} RunKeeps(s: State, es: seq<Event>)
    requires Inv(s) && IsRun(Locking, s, es) && Anchored(Locking, s, es)
    ensures Inv(After(Locking, s, es))
    decreases |es|
  {
    if es != [] {
      StepKeeps(s, es[0]);
      RunKeeps(Apply(Locking, s, es[0]), es[1..]);
    }
  }

  /** From any quiet database with sound tables, whatever the interleaving: no article has both a
      curation and a noise, no curation both an analyzed and an out-of-scope article, and the unique
      and foreign keys hold. Every prefix of a run is a run, so this speaks of every reachable state. */
  lemma RunIsSound(s: State, es: seq<Event>)
    requires Quiet(s) && Sound(s.committed)
    requires IsRun(Locking, s, es) && Anchored(Locking, s, es)
    ensures Sound(After(Locking, s, es).committed)
  {
    RunKeeps(s, es);
  }

  predicate IsResult(k: Key) {
    k.table.Noise? || k.table.Analyzed? || k.table.OutOfScope?
  }

  /** The article a result row belongs to, through its curation if it has one. */
  function ArticleOf(rows: Rows, k: Key): nat
    requires Closed(rows) && k in rows && IsResult(k)
  {
    if k.table.Noise? then rows[k] else rows[ParentKey(k.table, rows[k])]
  }

  /** Both levels together: an article ends in at most one of noise, analyzed, out of scope. */
  lemma OneResultPerArticle(s: State, es: seq<Event>, j: Key, k: Key)
    requires Quiet(s) && Sound(s.committed)
    requires IsRun(Locking, s, es) && Anchored(Locking, s, es)
    ensures Closed(After(Locking, s, es).committed)
    ensures var rows := After(Locking, s, es).committed;
            j in rows && k in rows && IsResult(j) && IsResult(k) && ArticleOf(rows, j) == ArticleOf(rows, k) ==>
              j == k
  {
    RunIsSound(s, es);
    var rows := After(Locking, s, es).committed;
    if j in rows && k in rows && IsResult(j) && IsResult(k) && ArticleOf(rows, j) == ArticleOf(rows, k) {
      // Two curated results share the article's only curation; a noise has no curation beside it.
      var cj, ck := ParentKey(j.table, rows[j]), ParentKey(k.table, rows[k]);
      if !j.table.Noise? && !k.table.Noise? {
        assert cj == ck;
      }
    }
  }

  // ---- Who waits for whom -----------------------------------------------------------------------

  /** On each parent, commit order is the order in which the lock was taken: a second
      transaction gets the parent's lock only after the first has ended or rolled back. */
  lemma {:induction false} FirstLockerEndsFirst(s: State, es: seq<Event>, parent: Key, t: Tx, u: Tx)
    requires Inv(s) && IsRun(Locking, s, es) && Anchored(Locking, s, es) && t != u
    requires Lock(t, parent, NoKeyUpdate) in s.locks
    requires Lock(u, parent, NoKeyUpdate) in After(Locking, s, es).locks
    ensures Commit(t) in es || Abort(t) in es || RollbackTo(t) in es
    decreases |es|
  {
    if es != [] && es[0] !in {Commit(t), Abort(t), RollbackTo(t)} {
      StepKeeps(s, es[0]);
      FirstLockerEndsFirst(Apply(Locking, s, es[0]), es[1..], parent, t, u);
    }
  }

  /** While a row is uncommitted, nobody else has its parent's lock: only a rollback that takes the
      row back lets another transaction in before the end. */
  lemma RowKeepsOthersOut(s: State, es: seq<Event>, t: Tx, k: Key, u: Tx)
    requires Quiet(s) && Sound(s.committed) && IsRun(Locking, s, es) && Anchored(Locking, s, es) && t != u
    requires var now := After(Locking, s, es); t in now.txs && k in now.txs[t].written && IsChild(k)
    ensures var now := After(Locking, s, es);
            Lock(u, ParentKey(k.table, now.txs[t].written[k]), NoKeyUpdate) !in now.locks
  {
    RunKeeps(s, es);
    var now := After(Locking, s, es);
    assert TxOk(now.committed, now.locks, t, now.txs[t]);
  }

  // ---- Savepoints ----------------------------------------------------------------------------------

  /** `t` itself neither ends nor touches its savepoints. */
  predicate StaysInside(t: Tx, es: seq<Event>) {
    forall e <- es :: e.tx == t ==> !(e.Begin? || e.Commit? || e.Abort? || e.Savepoint? || e.RollbackTo? || e.Release?)
  }

  lemma {:induction false} SavesStay(s: State, es: seq<Event>, t: Tx)
    requires IsRun(Locking, s, es) && StaysInside(t, es) && t in s.txs
    ensures t in After(Locking, s, es).txs && After(Locking, s, es).txs[t].saves == s.txs[t].saves
    ensures LocksOf(s.locks, t) <= After(Locking, s, es).locks
    decreases |es|
  {
    if es != [] {
      assert es[0] in es;
      SavesStay(Apply(Locking, s, es[0]), es[1..], t);
    }
  }

  /** A statement in a savepoint that is rolled back, because its trigger raised or for any other
      reason, leaves no trace of itself: work and locks are those at the savepoint, whatever the other
      transactions did meanwhile. */
  lemma RollbackUndoes(s: State, t: Tx, es: seq<Event>)
    requires t in s.txs && Enabled(Locking, s, Savepoint(t))
    requires var inside := Apply(Locking, s, Savepoint(t)); IsRun(Locking, inside, es) && StaysInside(t, es)
    ensures var last := After(Locking, Apply(Locking, s, Savepoint(t)), es);
            && Enabled(Locking, last, RollbackTo(t))
            && var s2 := Apply(Locking, last, RollbackTo(t));
               && s2.txs[t].(saves := s.txs[t].saves) == s.txs[t]
               && LocksOf(s2.locks, t) == LocksOf(s.locks, t)
  {
    SavesStay(Apply(Locking, s, Savepoint(t)), es, t);
  }
}
