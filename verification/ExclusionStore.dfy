/** The tables and the lock table as mutable state, and the triggers as methods on it. A method
    is one statement; `waits` says that the statement has to wait and nothing happened yet. */
module ExclusionStore {
  import opened Prelude
  import opened ExclusionModel
  import opened ExclusionSafety
  import opened ExclusionLaws

  /** The opposite table is another one, so the row being written is not among those looked at. */
  lemma LooksPastItself(view: Rows, w: Write)
    requires IsChild(w.key)
    ensures HasRow(view, Opposite(w.key.table), w.parent, w.key) <==>
            exists k <- view :: k.table == Opposite(w.key.table) && view[k] == w.parent
  {
  }

  class Store {
    var committed: Rows
    var txs: map<Tx, TxState>
    var locks: set<Lock>

    function Now(): State
      reads this
    {
      State(committed, txs, locks)
    }

    ghost predicate Valid()
      reads this
    {
      Inv(Now())
    }

    constructor ()
      ensures Now() == EMPTY && Valid()
    {
      committed, txs, locks := map[], map[], {};
    }

    /** What the next statement of `t` sees under READ COMMITTED. */
    function Sees(t: Tx): Rows
      requires t in txs
      reads this
    {
      View(committed, txs[t])
    }

    /** Nobody has a row with this key, committed or not. */
    predicate IsNew(key: Key)
      reads this
    {
      key !in committed && forall l <- locks :: l.key != key
    }

    predicate MustWait(t: Tx, key: Key, mode: Mode)
      reads this
    {
      exists l <- locks :: l.key == key && l.tx != t && Conflict(l.mode, mode)
    }

    method BeginTx(t: Tx)
      requires Valid() && t !in txs && forall l <- locks :: l.tx != t
      modifies this
      ensures Now() == Apply(Locking, old(Now()), Begin(t)) && Valid()
      ensures t in txs && Sees(t) == committed == old(committed)
    {
      StepKeeps(Now(), Begin(t));
      BeginAndEndLaw(Locking, Now(), t);
      txs := txs[t := NEW];
    }

    method NewArticleRow(t: Tx, id: nat)
      requires Valid() && t in txs && txs[t].stage.Idle?
      requires IsNew(Key(Article, id))
      modifies this
      ensures Now() == Apply(Locking, old(Now()), CreateArticle(t, id)) && Valid()
      ensures t in txs && Sees(t) == old(Sees(t))[Key(Article, id) := 0] && committed == old(committed)
    {
      StepKeeps(Now(), CreateArticle(t, id));
      CreateLaw(Locking, Now(), t, id);
      AddArticle(t, id);
    }

    method AddArticle(t: Tx, id: nat)
      requires Enabled(Locking, Now(), CreateArticle(t, id))
      modifies this`txs, this`locks
      ensures Now() == Apply(Locking, old(Now()), CreateArticle(t, id))
    {
      var x, key := txs[t], Key(Article, id);
      locks := locks + {Lock(t, key, Update)};
      txs := txs[t := x.(written := x.written[key := 0], ops := x.ops + [NewArticle(key)])];
    }

    /** The statement reaches the trigger with its NEW row. An UPDATE has locked the row first. */
    method StartWrite(t: Tx, key: Key, parent: nat, update: bool) returns (waits: bool)
      requires Valid() && t in txs && txs[t].stage.Idle? && IsChild(key)
      requires update ==> key in Sees(t)
      modifies this
      ensures waits <==> update && old(MustWait(t, key, Update))
      ensures waits ==> Now() == old(Now())
      ensures !waits ==>
        Now() == Apply(Locking, old(Now()), if update then StartUpdate(t, key, parent) else StartInsert(t, key, parent))
      ensures Valid()
    {
      waits := update && MustWait(t, key, Update);
      if !waits {
        StepKeeps(Now(), if update then StartUpdate(t, key, parent) else StartInsert(t, key, parent));
        locks := locks + if update then {Lock(t, key, Update)} else {};
        txs := txs[t := txs[t].(stage := Started(Write(key, parent, update)))];
      }
    }

    /** PERFORM 1 FROM parent WHERE id = NEW.parent FOR NO KEY UPDATE. */
    method LockParentRow(t: Tx) returns (waits: bool)
      requires Valid() && t in txs && txs[t].stage.Started?
      modifies this
      ensures var parent := ParentKey(old(txs[t]).stage.w.key.table, old(txs[t]).stage.w.parent);
              waits <==> parent in old(Sees(t)) && old(MustWait(t, parent, NoKeyUpdate))
      ensures waits ==> Now() == old(Now())
      ensures !waits ==> Now() == Apply(Locking, old(Now()), LockParent(t))
      ensures Valid()
    {
      var w := txs[t].stage.w;
      var parent := ParentKey(w.key.table, w.parent);
      var found := parent in Sees(t);
      waits := found && MustWait(t, parent, NoKeyUpdate);
      if !waits {
        StepKeeps(Now(), LockParent(t));
        if found {
          locks := locks + {Lock(t, parent, NoKeyUpdate)};
        }
        txs := txs[t := txs[t].(stage := Locked(w, found))];
      }
    }

    /** IF EXISTS a row of the opposite table THEN RAISE, else RETURN NEW. */
    method CheckOppositeRow(t: Tx) returns (raised: bool)
      requires Valid() && t in txs && txs[t].stage.Locked?
      modifies this
      ensures var w := old(txs[t]).stage.w;
              raised <==> exists k <- old(Sees(t)) :: k.table == Opposite(w.key.table) && old(Sees(t))[k] == w.parent
      ensures Now() == Apply(Locking, old(Now()), CheckOpposite(t)) && Valid()
    {
      StepKeeps(Now(), CheckOpposite(t));
      var x := txs[t];
      var w := x.stage.w;
      var view := Sees(t);
      assert StartedOk(committed, locks, t, x, w);
      LooksPastItself(view, w);
      raised := exists k <- view :: k.table == Opposite(w.key.table) && view[k] == w.parent;
      txs := txs[t := x.(stage := if raised then Failed else Checked(w, x.stage.found))];
    }

    /** A row of the same table has the parent already. */
    predicate Taken(t: Tx, w: Write)
      requires t in txs
      reads this
    {
      exists k <- Sees(t) :: k != w.key && k.table == w.key.table && Sees(t)[k] == w.parent
    }

    /** Another transaction has a row of the same table and parent that it has not committed, or has locked a
        committed one. */
    predicate Claimed(t: Tx, w: Write)
      reads this
    {
      exists u <- txs :: u != t &&
        (|| (exists k <- txs[u].written :: k != w.key && k.table == w.key.table && txs[u].written[k] == w.parent)
         || (exists k <- committed ::
               k != w.key && k.table == w.key.table && committed[k] == w.parent && Lock(u, k, Update) in locks))
    }

    lemma ClaimedMeans(t: Tx, w: Write)
      ensures Claimed(t, w) <==> UniqueWaits(Now(), t, w)
    {
      assert forall u <- txs :: TakesKey(Now(), u, w) <==>
        (|| (exists k <- txs[u].written :: k != w.key && k.table == w.key.table && txs[u].written[k] == w.parent)
         || (exists k <- committed ::
               k != w.key && k.table == w.key.table && committed[k] == w.parent && Lock(u, k, Update) in locks));
    }

    /** The row goes in: unique check, foreign key check with FOR KEY SHARE, then the row. With
        `skipTaken`, ON CONFLICT DO NOTHING, a taken unique key ends the statement without a row and
        before the foreign key check. */
    method PutRow(t: Tx, skipTaken: bool) returns (waits: bool)
      requires Valid() && t in txs && txs[t].stage.Checked?
      requires txs[t].stage.w.update || IsNew(txs[t].stage.w.key)
      modifies this
      ensures var w := old(txs[t]).stage.w;
              var parent := ParentKey(w.key.table, w.parent);
              var skips := skipTaken && !w.update && old(exists k <- Sees(t) ::
                             k != w.key && k.table == w.key.table && Sees(t)[k] == w.parent);
              && (waits <==> old(Claimed(t, w))
                             || (!skips && parent in old(Sees(t)) && old(MustWait(t, parent, KeyShare))))
              && (!waits ==> Now() == Apply(Locking, old(Now()), if skips then SkipRow(t) else WriteRow(t)))
              && (skips ==> Valid())
              // The transaction sees the row from now on exactly if there was room for it.
              && (!waits ==> t in txs
                             && Sees(t) == if old(FindsRoom(Sees(t), w)) then old(Sees(t))[w.key := w.parent]
                                            else old(Sees(t)))
              && (!waits ==> (txs[t].stage.Failed? <==> !skips && !old(FindsRoom(Sees(t), w))))
      ensures committed == old(committed) && (waits ==> Now() == old(Now()))
      ensures old(txs[t].stage.found) ==> Valid()
    {
      var x := txs[t];
      var w := x.stage.w;
      var view, parent := Sees(t), ParentKey(w.key.table, w.parent);
      var skips := skipTaken && !w.update && Taken(t, w);
      ClaimedMeans(t, w);
      waits := Claimed(t, w) || (!skips && parent in view && MustWait(t, parent, KeyShare));
      if waits {
        return;
      }
      if skips {
        StepKeeps(Now(), SkipRow(t));
        OtherStepsLaw(Locking, Now(), SkipRow(t));
        Skip(t);
      } else {
        if x.stage.found {
          StepKeeps(Now(), WriteRow(t));
        }
        WriteLaw(Locking, Now(), t);
        CheckAndPut(t);
      }
    }

    method Skip(t: Tx)
      requires Enabled(Locking, Now(), SkipRow(t))
      modifies this`txs
      ensures Now() == Apply(Locking, old(Now()), SkipRow(t))
    {
      txs := txs[t := txs[t].(stage := Idle)];
    }

    method CheckAndPut(t: Tx)
      requires Enabled(Locking, Now(), WriteRow(t))
      modifies this
      ensures Now() == Apply(Locking, old(Now()), WriteRow(t))
    {
      var x := txs[t];
      var w := x.stage.w;
      var view, parent := Sees(t), ParentKey(w.key.table, w.parent);
      if parent in view && !HasRow(view, w.key.table, w.parent, w.key) && (w.update ==> w.key in view) {
        locks := locks + {Lock(t, w.key, Update), Lock(t, parent, KeyShare)};
        var op := if w.update then Change(w.key, w.parent) else Insert(w.key, w.parent);
        txs := txs[t := TxState(x.written[w.key := w.parent], x.deleted, x.ops + [op], Idle, x.saves)];
      } else {
        txs := txs[t := x.(stage := Failed)];
      }
    }

    /** SAVEPOINT */
    method SetSavepoint(t: Tx)
      requires Valid() && t in txs && txs[t].stage.Idle?
      modifies this`txs
      ensures Now() == Apply(Locking, old(Now()), Savepoint(t)) && Valid()
    {
      StepKeeps(Now(), Savepoint(t));
      var x := txs[t];
      txs := txs[t := x.(saves := x.saves + [Save(x.written, x.deleted, x.ops, set l <- locks | l.tx == t)])];
    }

    /** ROLLBACK TO SAVEPOINT, which a transaction may send although its last statement has failed. */
    method RollbackToSavepoint(t: Tx)
      requires Valid() && t in txs && txs[t].saves != []
      modifies this`txs, this`locks
      ensures Now() == Apply(Locking, old(Now()), RollbackTo(t)) && Valid()
      ensures txs[t].stage.Idle? && committed == old(committed)
    {
      StepKeeps(Now(), RollbackTo(t));
      var x := txs[t];
      txs, locks := txs[t := BackTo(x)], LocksBackTo(locks, t, x);
    }

    /** RELEASE SAVEPOINT */
    method ReleaseSavepoint(t: Tx)
      requires Valid() && t in txs && txs[t].stage.Idle? && txs[t].saves != []
      modifies this`txs
      ensures Now() == Apply(Locking, old(Now()), Release(t)) && Valid()
    {
      StepKeeps(Now(), Release(t));
      var x := txs[t];
      txs := txs[t := x.(saves := x.saves[..|x.saves| - 1])];
    }

    /** A DELETE that sees no row does nothing. */
    method RemoveRow(t: Tx, key: Key) returns (waits: bool)
      requires Valid() && t in txs && txs[t].stage.Idle?
      modifies this
      ensures waits <==> key in old(Sees(t)) && old(MustWait(t, key, Update))
      ensures waits || key !in old(Sees(t)) ==> Now() == old(Now())
      ensures !waits && key in old(Sees(t)) ==> Now() == Apply(Locking, old(Now()), DeleteRow(t, key))
      ensures t in txs && Sees(t) == if waits then old(Sees(t)) else old(Sees(t)) - {key}
      ensures committed == old(committed)
      ensures Valid()
    {
      if key !in Sees(t) {
        return false;
      }
      waits := MustWait(t, key, Update);
      if !waits {
        StepKeeps(Now(), DeleteRow(t, key));
        DeleteLaw(Locking, Now(), t, key);
        DropRow(t, key);
      }
    }

    method DropRow(t: Tx, key: Key)
      requires Enabled(Locking, Now(), DeleteRow(t, key))
      modifies this`txs, this`locks
      ensures Now() == Apply(Locking, old(Now()), DeleteRow(t, key))
    {
      var x := txs[t];
      locks := locks + {Lock(t, key, Update)};
      txs := txs[t := x.(written := x.written - {key}, deleted := x.deleted + {key}, ops := x.ops + [Delete(key)])];
    }

    method CommitTx(t: Tx)
      requires Valid() && t in txs && txs[t].stage.Idle?
      requires forall k <- Sees(t) :: IsChild(k) ==> ParentKey(k.table, Sees(t)[k]) !in txs[t].deleted
      modifies this
      ensures Now() == Apply(Locking, old(Now()), Commit(t)) && Valid()
      ensures Sound(committed) && committed == old(Sees(t)) && t !in txs && forall l <- locks :: l.tx != t
    {
      StepKeeps(Now(), Commit(t));
      committed := Sees(t);
      txs := txs - {t};
      locks := set l <- locks | l.tx != t;
    }

    method AbortTx(t: Tx)
      requires Valid() && t in txs
      modifies this
      ensures Now() == Apply(Locking, old(Now()), Abort(t)) && Valid()
      ensures committed == old(committed)
    {
      StepKeeps(Now(), Abort(t));
      txs := txs - {t};
      locks := set l <- locks | l.tx != t;
    }
  }
}
