/** What each statement does to what its transaction sees, for every state of the transaction: inside or
    outside a savepoint, first statement or last. */
module ExclusionLaws {
  import opened ExclusionModel

  /** PostgreSQL's table of row lock conflicts, for the three modes that occur. */
  lemma ConflictTable()
    ensures !Conflict(KeyShare, KeyShare) && !Conflict(KeyShare, NoKeyUpdate) && Conflict(KeyShare, Update)
    ensures !Conflict(NoKeyUpdate, KeyShare) && Conflict(NoKeyUpdate, NoKeyUpdate) && Conflict(NoKeyUpdate, Update)
    ensures Conflict(Update, KeyShare) && Conflict(Update, NoKeyUpdate) && Conflict(Update, Update)
  {
  }

  /** The row goes in: its parent is visible and no other visible row of its table has that parent. */
  ghost predicate FindsRoom(view: Rows, w: Write) {
    && ParentKey(w.key.table, w.parent) in view
    && (forall k <- view :: k.table == w.key.table && view[k] == w.parent ==> k == w.key)
    && (w.update ==> w.key in view)
  }

  /** Nothing changes for anybody else, and nothing is committed. */
  predicate OnlyOwn(s: State, s2: State, t: Tx) {
    && s2.committed == s.committed && t in s2.txs && s2.txs.Keys == s.txs.Keys
    && (forall u <- s.txs :: u != t ==> s2.txs[u] == s.txs[u])
    && (forall l :: l in s2.locks && l !in s.locks ==> l.tx == t)
    && (forall l :: l in s.locks && l !in s2.locks ==> l.tx == t)
  }

  lemma RoomIsSuccess(view: Rows, w: Write)
    ensures FindsRoom(view, w) <==> WriteSucceeds(view, w)
  {
  }

  lemma RowGoesIn(proto: Protocol, s: State, t: Tx)
    requires Enabled(proto, s, WriteRow(t)) && WriteSucceeds(View(s.committed, s.txs[t]), s.txs[t].stage.w)
    ensures var s2, w := Apply(proto, s, WriteRow(t)), s.txs[t].stage.w;
            && t in s2.txs && View(s2.committed, s2.txs[t]) == View(s.committed, s.txs[t])[w.key := w.parent]
            && s2.txs[t].stage == Idle && s2.txs[t].saves == s.txs[t].saves
            && s2.locks == s.locks + {Lock(t, w.key, Update), Lock(t, ParentKey(w.key.table, w.parent), KeyShare)}
            && s2 == State(s.committed, s.txs[t := s2.txs[t]], s2.locks)
  {
  }

  lemma RowDoesNotGoIn(proto: Protocol, s: State, t: Tx)
    requires Enabled(proto, s, WriteRow(t)) && !WriteSucceeds(View(s.committed, s.txs[t]), s.txs[t].stage.w)
    ensures Apply(proto, s, WriteRow(t)) == s.(txs := s.txs[t := s.txs[t].(stage := Failed)])
    ensures View(s.committed, s.txs[t].(stage := Failed)) == View(s.committed, s.txs[t])
  {
    assert s.locks + {} == s.locks;
  }

  /** INSERT and UPDATE: if there is room the transaction sees the row from now on, otherwise it sees what it
      saw and the statement has failed. */
  lemma WriteLaw(proto: Protocol, s: State, t: Tx)
    requires Enabled(proto, s, WriteRow(t))
    ensures s.txs[t].stage.Checked?
    ensures var s2 := Apply(proto, s, WriteRow(t));
            && s2.committed == s.committed && t in s2.txs && s2.txs == s.txs[t := s2.txs[t]]
            && s2.txs[t].saves == s.txs[t].saves
            && var w, view := s.txs[t].stage.w, View(s.committed, s.txs[t]);
               if FindsRoom(view, w) then
                 && View(s2.committed, s2.txs[t]) == view[w.key := w.parent] && s2.txs[t].stage == Idle
                 && s2.locks == s.locks + {Lock(t, w.key, Update), Lock(t, ParentKey(w.key.table, w.parent), KeyShare)}
               else View(s2.committed, s2.txs[t]) == view && s2.txs[t].stage == Failed && s2.locks == s.locks
  {
    var w, view := s.txs[t].stage.w, View(s.committed, s.txs[t]);
    RoomIsSuccess(view, w);
    if WriteSucceeds(view, w) {
      RowGoesIn(proto, s, t);
    } else {
      RowDoesNotGoIn(proto, s, t);
    }
  }

  /** DELETE takes exactly the row away. */
  lemma DeleteLaw(proto: Protocol, s: State, t: Tx, k: Key)
    requires Enabled(proto, s, DeleteRow(t, k))
    ensures var s2 := Apply(proto, s, DeleteRow(t, k));
            && OnlyOwn(s, s2, t) && s2.locks == s.locks + {Lock(t, k, Update)}
            && s2.txs[t].saves == s.txs[t].saves && s2.txs[t].stage == Idle
            && View(s2.committed, s2.txs[t]) == View(s.committed, s.txs[t]) - {k}
  {
  }

  lemma CreateLaw(proto: Protocol, s: State, t: Tx, id: nat)
    requires Enabled(proto, s, CreateArticle(t, id))
    ensures var s2 := Apply(proto, s, CreateArticle(t, id));
            && OnlyOwn(s, s2, t) && s2.locks == s.locks + {Lock(t, Key(Article, id), Update)}
            && s2.txs[t].saves == s.txs[t].saves && s2.txs[t].stage == Idle
            && View(s2.committed, s2.txs[t]) == View(s.committed, s.txs[t])[Key(Article, id) := 0]
  {
  }

  /** The steps of a trigger, a skipped row and the savepoints leave what is seen alone. */
  lemma OtherStepsLaw(proto: Protocol, s: State, e: Event)
    requires Enabled(proto, s, e)
    requires e.StartInsert? || e.StartUpdate? || e.LockParent? || e.CheckOpposite? || e.SkipRow? || e.Savepoint?
             || e.Release?
    ensures var s2 := Apply(proto, s, e);
            && OnlyOwn(s, s2, e.tx) && s.locks <= s2.locks
            && View(s2.committed, s2.txs[e.tx]) == View(s.committed, s.txs[e.tx])
            && (e.StartInsert? ==> s2.txs[e.tx].stage == Started(Write(e.key, e.parent, false)))
            && (e.StartUpdate? ==>
                  s2.txs[e.tx].stage == Started(Write(e.key, e.parent, true)) && Lock(e.tx, e.key, Update) in s2.locks)
            && (e.SkipRow? || e.Savepoint? || e.Release? ==> s2.txs[e.tx].stage == Idle)
  {
  }

  /** The lock statement locks the parent if it sees it; the check fails exactly if it sees a row of the other
      table of the pair under the same parent. */
  lemma TriggerLaw(s: State, t: Tx)
    ensures Enabled(Locking, s, LockParent(t)) ==>
      var w, view := s.txs[t].stage.w, View(s.committed, s.txs[t]);
      var s2, parent := Apply(Locking, s, LockParent(t)), ParentKey(w.key.table, w.parent);
      && s2.txs[t].stage == Locked(w, parent in view)
      && s2.locks == s.locks + if parent in view then {Lock(t, parent, NoKeyUpdate)} else {}
    ensures Enabled(Locking, s, CheckOpposite(t)) ==>
      var w, view := s.txs[t].stage.w, View(s.committed, s.txs[t]);
      var s2 := Apply(Locking, s, CheckOpposite(t));
      if exists k <- view :: k.table == Opposite(w.key.table) && view[k] == w.parent && k != w.key
      then s2.txs[t].stage == Failed
      else s2.txs[t].stage == Checked(w, s.txs[t].stage.found)
  {
  }

  /** The two pairs and their parents. */
  lemma Pairs()
    ensures Opposite(Curation) == Noise && Opposite(Noise) == Curation
    ensures Opposite(Analyzed) == OutOfScope && Opposite(OutOfScope) == Analyzed
    ensures ParentTable(Curation) == ParentTable(Noise) == Article
    ensures ParentTable(Analyzed) == ParentTable(OutOfScope) == Curation
    ensures forall k: Key :: IsChild(k) <==> k.table in {Curation, Noise, Analyzed, OutOfScope}
  {
  }

  /** A transaction begins by seeing what is committed; it ends with exactly what it saw being committed, or
      with nothing; either way its locks are gone. */
  lemma BeginAndEndLaw(proto: Protocol, s: State, t: Tx)
    ensures Enabled(proto, s, Begin(t)) ==>
      var s2 := Apply(proto, s, Begin(t));
      && t in s2.txs && View(s2.committed, s2.txs[t]) == s.committed == s2.committed && s2.locks == s.locks
      && s2.txs[t].stage == Idle && s2.txs[t].saves == [] && s2.txs == s.txs[t := s2.txs[t]]
    ensures Enabled(proto, s, Commit(t)) ==>
      Apply(proto, s, Commit(t)) ==
        State(View(s.committed, s.txs[t]), s.txs - {t}, set l <- s.locks | l.tx != t)
    ensures Enabled(proto, s, Abort(t)) ==>
      Apply(proto, s, Abort(t)) == State(s.committed, s.txs - {t}, set l <- s.locks | l.tx != t)
  {
    if Enabled(proto, s, Begin(t)) {
      assert View(s.committed, NEW) == s.committed;
    }
  }
}
