/** The database as its clients think of it: statements are noted down as they are sent, a transaction sees the
    committed rows with its own statements carried out on them, and a commit carries them out for everybody.
    There are no locks, no triggers and no waiting. A run of the locking protocol comes to the same. */
module ExclusionLedger {
  import opened Prelude
  import opened ExclusionModel
  import opened ExclusionSerial
  import opened ExclusionSafety

  /** The statements of an open transaction, the write it is at, and its savepoints. */
  datatype Diary = Diary(ops: seq<Op>, pending: Option<Write>, marks: seq<seq<Op>>)

  /** `history`: the committed transactions, each as its list of statements. */
  datatype Ledger = Ledger(rows: Rows, diaries: map<Tx, Diary>, history: seq<seq<Op>>)

  function OpOf(w: Write): Op {
    if w.update then Change(w.key, w.parent) else Insert(w.key, w.parent)
  }

  /** The next statement can be carried out after those before it. */
  predicate GoesThrough(rows: Rows, ops: seq<Op>, op: Op) {
    SerialTx(rows, ops).Some? && SerialOp(SerialTx(rows, ops).value, op).Some?
  }

  function Note(rows: Rows, d: Diary, e: Event): Diary {
    match e
    case CreateArticle(_, id) => d.(ops := d.ops + [NewArticle(Key(Article, id))])
    case StartInsert(_, k, p) => d.(pending := Some(Write(k, p, false)))
    case StartUpdate(_, k, p) => d.(pending := Some(Write(k, p, true)))
    case WriteRow(_) =>
      if d.pending.Some? && GoesThrough(rows, d.ops, OpOf(d.pending.value))
      then d.(ops := d.ops + [OpOf(d.pending.value)]) else d
    case DeleteRow(_, k) => d.(ops := d.ops + [Delete(k)])
    case Savepoint(_) => d.(marks := d.marks + [d.ops])
    case RollbackTo(_) => if d.marks == [] then d else d.(ops := d.marks[|d.marks| - 1])
    case Release(_) => if d.marks == [] then d else d.(marks := d.marks[..|d.marks| - 1])
    case _ => d
  }

  function Post(l: Ledger, e: Event): Ledger {
    match e
    case Begin(t) => l.(diaries := l.diaries[t := Diary([], None, [])])
    case Abort(t) => l.(diaries := l.diaries - {t})
    case Commit(t) =>
      if t !in l.diaries then l
      else Ledger(SerialTx(l.rows, l.diaries[t].ops).GetOr(l.rows), l.diaries - {t}, l.history + [l.diaries[t].ops])
    case _ =>
      if e.tx !in l.diaries then l else l.(diaries := l.diaries[e.tx := Note(l.rows, l.diaries[e.tx], e)])
  }

  function PostAll(l: Ledger, es: seq<Event>): Ledger
    decreases |es|
  {
    if es == [] then l else PostAll(Post(l, es[0]), es[1..])
  }

  function Opened(rows: Rows): Ledger { Ledger(rows, map[], []) }

  // ---- The protocol keeps the ledger ------------------------------------------------------------------

  ghost predicate TxMatches(x: TxState, d: Diary) {
    && x.ops == d.ops
    && |x.saves| == |d.marks| && (forall i :: 0 <= i < |x.saves| ==> x.saves[i].ops == d.marks[i])
    && (x.stage.Started? || x.stage.Locked? || x.stage.Checked? ==> d.pending == Some(x.stage.w))
  }

  ghost predicate Matches(s: State, l: Ledger) {
    && l.rows == s.committed && l.diaries.Keys == s.txs.Keys
    && (forall t <- s.txs :: TxMatches(s.txs[t], l.diaries[t]))
  }

  lemma PlaceIff(view: Rows, w: Write)
    requires IsChild(w.key) && (!w.update ==> w.key !in view)
    ensures SerialOp(view, OpOf(w)).Some? <==>
            WriteSucceeds(view, w) && !HasRow(view, Opposite(w.key.table), w.parent, w.key)
  {
    if WriteSucceeds(view, w) && !HasRow(view, Opposite(w.key.table), w.parent, w.key) {
      PlacedSucceeds(view, w);
    }
  }

  /** A write goes in under the protocol exactly if it could be carried out with nobody else there. */
  lemma WriteGoesThrough(s: State, t: Tx)
    requires Inv(s) && Enabled(Locking, s, WriteRow(t)) && !WritesUnlocked(s, WriteRow(t))
    ensures var x := s.txs[t];
            WriteSucceeds(View(s.committed, x), x.stage.w) <==> GoesThrough(s.committed, x.ops, OpOf(x.stage.w))
  {
    var x := s.txs[t];
    var view, w := View(s.committed, x), x.stage.w;
    assert SerialTx(s.committed, x.ops) == Some(view) && StageOk(s.committed, s.locks, t, x) by {
      assert TxOk(s.committed, s.locks, t, x);
    }
    assert w.key !in view || w.update;
    PlaceIff(view, w);
  }

  lemma WriteMatches(s: State, t: Tx, d: Diary)
    requires Inv(s) && Enabled(Locking, s, WriteRow(t)) && !WritesUnlocked(s, WriteRow(t)) && TxMatches(s.txs[t], d)
    ensures TxMatches(ApplyIn(s, WriteRow(t), s.txs[t]), Note(s.committed, d, WriteRow(t)))
  {
    WriteGoesThrough(s, t);
  }

  lemma RollbackMatches(s: State, t: Tx, d: Diary)
    requires Enabled(Locking, s, RollbackTo(t)) && TxMatches(s.txs[t], d)
    ensures TxMatches(BackTo(s.txs[t]), Note(s.committed, d, RollbackTo(t)))
  {
  }

  lemma OtherMatches(s: State, e: Event, x: TxState, d: Diary)
    requires EnabledIn(Locking, s, e, x) && TxMatches(x, d)
    requires !e.Begin? && !e.Commit? && !e.Abort? && !e.RollbackTo? && !e.WriteRow?
    ensures TxMatches(ApplyIn(s, e, x), Note(s.committed, d, e))
  {
  }

  lemma OwnStepMatches(s: State, e: Event, l: Ledger)
    requires Inv(s) && Enabled(Locking, s, e) && !WritesUnlocked(s, e) && Matches(s, l)
    requires !e.Begin? && !e.Commit? && !e.Abort?
    ensures e.tx in Apply(Locking, s, e).txs
    ensures TxMatches(Apply(Locking, s, e).txs[e.tx], Note(l.rows, l.diaries[e.tx], e))
  {
    var d := l.diaries[e.tx];
    if e.WriteRow? {
      WriteMatches(s, e.tx, d);
    } else if e.RollbackTo? {
      RollbackMatches(s, e.tx, d);
    } else {
      OtherMatches(s, e, s.txs[e.tx], d);
    }
  }

  lemma OnlyOwnChanges(s: State, e: Event)
    requires Enabled(Locking, s, e) && !e.Begin? && !e.Commit? && !e.Abort?
    ensures var s2 := Apply(Locking, s, e);
            s2.committed == s.committed && e.tx in s.txs && e.tx in s2.txs && s2.txs == s.txs[e.tx := s2.txs[e.tx]]
  {
  }

  lemma CommitMatches(s: State, e: Event, l: Ledger)
    requires Inv(s) && Enabled(Locking, s, e) && e.Commit? && Matches(s, l)
    ensures Matches(Apply(Locking, s, e), Post(l, e))
  {
    assert TxOk(s.committed, s.locks, e.tx, s.txs[e.tx]);
  }

  lemma EndsMatch(s: State, e: Event, l: Ledger)
    requires Enabled(Locking, s, e) && (e.Begin? || e.Abort?) && Matches(s, l)
    ensures Matches(Apply(Locking, s, e), Post(l, e))
  {
  }

  lemma OneMatches(s: State, s2: State, l: Ledger, t: Tx, d: Diary)
    requires Matches(s, l) && t in s.txs && t in s2.txs
    requires s2.committed == s.committed && s2.txs == s.txs[t := s2.txs[t]] && TxMatches(s2.txs[t], d)
    ensures Matches(s2, l.(diaries := l.diaries[t := d]))
  {
  }

  lemma StepMatches(s: State, e: Event, l: Ledger)
    requires Inv(s) && Enabled(Locking, s, e) && !WritesUnlocked(s, e) && Matches(s, l)
    ensures Matches(Apply(Locking, s, e), Post(l, e))
  {
    if e.Commit? {
      CommitMatches(s, e, l);
    } else if e.Begin? || e.Abort? {
      EndsMatch(s, e, l);
    } else {
      OnlyOwnChanges(s, e);
      OwnStepMatches(s, e, l);
      OneMatches(s, Apply(Locking, s, e), l, e.tx, Note(l.rows, l.diaries[e.tx], e));
    }
  }

  lemma {:induction false} RunMatches(s: State, es: seq<Event>, l: Ledger)
    requires Inv(s) && IsRun(Locking, s, es) && Anchored(Locking, s, es) && Matches(s, l)
    ensures Inv(After(Locking, s, es)) && Matches(After(Locking, s, es), PostAll(l, es))
    decreases |es|
  {
    if es != [] {
      StepKeeps(s, es[0]);
      StepMatches(s, es[0], l);
      RunMatches(Apply(Locking, s, es[0]), es[1..], Post(l, es[0]));
    }
  }

  /** After any run the committed rows are those of the ledger, and every open transaction sees them with its
      own statements carried out: those it sent, in their order, without the ones it rolled back or that
      failed. */
  lemma RunIsAsNoted(s: State, es: seq<Event>)
    requires Quiet(s) && Sound(s.committed) && IsRun(Locking, s, es) && Anchored(Locking, s, es)
    ensures var now, l := After(Locking, s, es), PostAll(Opened(s.committed), es);
            && now.committed == l.rows && now.txs.Keys == l.diaries.Keys
            && forall t <- now.txs :: SerialTx(l.rows, l.diaries[t].ops) == Some(View(now.committed, now.txs[t]))
  {
    RunMatches(s, es, Opened(s.committed));
    var now, l := After(Locking, s, es), PostAll(Opened(s.committed), es);
    forall t | t in now.txs
      ensures SerialTx(l.rows, l.diaries[t].ops) == Some(View(now.committed, now.txs[t]))
    {
      assert TxOk(now.committed, now.locks, t, now.txs[t]) && TxMatches(now.txs[t], l.diaries[t]);
    }
  }

  // ---- Serializability ---------------------------------------------------------------------------------

  /** The ledger's rows are those of its history, one transaction after the other. */
  ghost predicate Balanced(start: Rows, l: Ledger) {
    SerialAll(start, l.history) == Some(l.rows)
  }

  lemma StepBalances(s: State, e: Event, l: Ledger, start: Rows)
    requires Inv(s) && Enabled(Locking, s, e) && Matches(s, l) && Balanced(start, l)
    ensures Balanced(start, Post(l, e))
  {
    if e.Commit? {
      assert TxOk(s.committed, s.locks, e.tx, s.txs[e.tx]) && TxMatches(s.txs[e.tx], l.diaries[e.tx]);
      SerialAllAppend(start, l.history, l.diaries[e.tx].ops);
    }
  }

  lemma {:induction false} RunBalances(s: State, es: seq<Event>, l: Ledger, start: Rows)
    requires Inv(s) && IsRun(Locking, s, es) && Anchored(Locking, s, es) && Matches(s, l) && Balanced(start, l)
    ensures Balanced(start, PostAll(l, es))
    decreases |es|
  {
    if es != [] {
      StepKeeps(s, es[0]);
      StepMatches(s, es[0], l);
      StepBalances(s, es[0], l, start);
      RunBalances(Apply(Locking, s, es[0]), es[1..], Post(l, es[0]), start);
    }
  }

  /** Any interleaving has the effect of its committed transactions run one at a time, with no locks, in commit
      order. What each of them did is read off the run's events alone. */
  lemma RunIsSerializable(s: State, es: seq<Event>)
    requires Quiet(s) && Sound(s.committed)
    requires IsRun(Locking, s, es) && Anchored(Locking, s, es)
    ensures SerialAll(s.committed, PostAll(Opened(s.committed), es).history) == Some(After(Locking, s, es).committed)
  {
    assert SerialAll(s.committed, []) == Some(s.committed);
    RunMatches(s, es, Opened(s.committed));
    RunBalances(s, es, Opened(s.committed), s.committed);
  }
}
