/** What clients have to do for the lock to find its parent row: insert children only for a parent
    they can see, and never use a key twice. */
module ExclusionParents {
  import opened Prelude
  import opened ExclusionModel
  import opened ExclusionSafety
  import opened ExclusionSerial
  import opened ExclusionLedger

  /** A write names a parent its transaction can see when the statement starts. */
  predicate NamesSeenParent(s: State, e: Event) {
    (e.StartInsert? || e.StartUpdate?) && e.tx in s.txs ==>
      ParentKey(e.key.table, e.parent) in View(s.committed, s.txs[e.tx])
  }

  /** The keys of the rows the step creates. */
  function KeysMade(s: State, e: Event): set<Key> {
    match e
    case CreateArticle(t, id) => {Key(Article, id)}
    case WriteRow(t) =>
      if t in s.txs && s.txs[t].stage.Checked? && !s.txs[t].stage.w.update
         && WriteSucceeds(View(s.committed, s.txs[t]), s.txs[t].stage.w) then {s.txs[t].stage.w.key}
      else {}
    case _ => {}
  }

  /** The first rule: every write of the run names a parent its transaction can see. */
  predicate SeesParents(s: State, es: seq<Event>)
    requires IsRun(Locking, s, es)
    decreases |es|
  {
    es == [] || (NamesSeenParent(s, es[0]) && SeesParents(Apply(Locking, s, es[0]), es[1..]))
  }

  /** The second rule: no key is used twice; `used` are the keys handed out before the run. */
  predicate FreshKeys(s: State, es: seq<Event>, used: set<Key>)
    requires IsRun(Locking, s, es)
    decreases |es|
  {
    es == [] ||
    (KeysMade(s, es[0]) !! used && FreshKeys(Apply(Locking, s, es[0]), es[1..], used + KeysMade(s, es[0])))
  }

  // ---- Invariant -------------------------------------------------------------------------

  /** The row is in the transaction's work, now or after going back to a savepoint. */
  ghost predicate InWork(x: TxState, p: Key) {
    p in x.written || exists v <- x.saves :: p in v.written
  }

  /** The row is in nobody's view any more, and will be in nobody's by going back. */
  ghost predicate Gone(s: State, p: Key) {
    p !in s.committed && forall u <- s.txs :: !InWork(s.txs[u], p)
  }

  /** A statement that has not looked for its parent yet saw it when it started, and one that found
      none knows that it has gone for good. */
  ghost predicate ParentTracked(s: State, x: TxState, used: set<Key>) {
    match x.stage
    case Started(w) =>
      var p := ParentKey(w.key.table, w.parent);
      p in used && (p in View(s.committed, x) || Gone(s, p))
    case Locked(w, found) => found || MissedForGood(s, w, used)
    case Checked(w, found) => found || MissedForGood(s, w, used)
    case _ => true
  }

  ghost predicate MissedForGood(s: State, w: Write, used: set<Key>) {
    ParentKey(w.key.table, w.parent) in used && Gone(s, ParentKey(w.key.table, w.parent))
  }

  ghost predicate KeysUsed(s: State, used: set<Key>) {
    && s.committed.Keys <= used
    && (forall t, k :: t in s.txs && InWork(s.txs[t], k) ==> k in used)
  }

  ghost predicate Tracked(s: State, used: set<Key>) {
    KeysUsed(s, used) && forall t <- s.txs :: ParentTracked(s, s.txs[t], used)
  }

  /** What a step adds to its transaction's work are keys it makes or rows it could see. */
  lemma WorkGrowsBy(s: State, e: Event, k: Key)
    requires Enabled(Locking, s, e) && e.tx in Apply(Locking, s, e).txs && InWork(Apply(Locking, s, e).txs[e.tx], k)
    ensures k in KeysMade(s, e) || k in s.committed || (e.tx in s.txs && InWork(s.txs[e.tx], k))
  {
    if !e.Begin? {
      var x := s.txs[e.tx];
      var y := Apply(Locking, s, e).txs[e.tx];
      if e.RollbackTo? {
        assert x.saves[|x.saves| - 1] in x.saves;
      } else if e.Savepoint? {
        assert forall v <- y.saves :: v in x.saves || v.written == x.written;
      } else if e.Release? {
        assert forall v <- y.saves :: v in x.saves;
      }
    }
  }

  /** A row that has gone does not come back, because its key is not used again. */
  lemma GoneStays(s: State, e: Event, used: set<Key>, p: Key)
    requires Enabled(Locking, s, e) && KeysMade(s, e) !! used && p in used && Gone(s, p)
    ensures Gone(Apply(Locking, s, e), p)
  {
    var s2 := Apply(Locking, s, e);
    forall u | u in s2.txs
      ensures !InWork(s2.txs[u], p)
    {
      if u == e.tx && InWork(s2.txs[u], p) {
        WorkGrowsBy(s, e, p);
      }
    }
  }

  lemma KeysStayUsed(s: State, e: Event, used: set<Key>)
    requires KeysUsed(s, used) && Enabled(Locking, s, e)
    ensures KeysUsed(Apply(Locking, s, e), used + KeysMade(s, e))
  {
    var s2 := Apply(Locking, s, e);
    forall t, k | t in s2.txs && InWork(s2.txs[t], k)
      ensures k in used + KeysMade(s, e)
    {
      if t == e.tx {
        WorkGrowsBy(s, e, k);
      }
    }
  }

  /** A row that one transaction has deleted is in nobody else's work. */
  ghost predicate DeletedByOne(s: State) {
    forall t, u, p | t in s.txs && u in s.txs && t != u && p in s.txs[t].deleted :: !InWork(s.txs[u], p)
  }

  /** Rows in a transaction's work are locked by it, also those before its savepoints. */
  lemma WorkIsLocked(committed: Rows, locks: set<Lock>, t: Tx, x: TxState, k: Key)
    requires TxOk(committed, locks, t, x) && SavesOk(committed, locks, t, x.saves) && InWork(x, k)
    ensures Lock(t, k, Update) in locks
  {
    if k !in x.written {
      var v :| v in x.saves && k in v.written;
      assert SaveOk(committed, locks, t, v);
    }
  }

  /** Rows are deleted under a lock, too. */
  lemma InvDeletesByOne(s: State)
    requires Inv(s)
    ensures DeletedByOne(s)
  {
    forall t, u, p | t in s.txs && u in s.txs && t != u && p in s.txs[t].deleted
      ensures !InWork(s.txs[u], p)
    {
      assert TxOk(s.committed, s.locks, t, s.txs[t]);
      if InWork(s.txs[u], p) {
        WorkIsLocked(s.committed, s.locks, u, s.txs[u], p);
      }
    }
  }

  lemma DeletedIsGone(s: State, e: Event, p: Key)
    requires DeletedByOne(s) && e.Commit? && Enabled(Locking, s, e)
    requires p in s.txs[e.tx].deleted && p !in View(s.committed, s.txs[e.tx])
    ensures Gone(Apply(Locking, s, e), p)
  {
  }

  /** A parent that a waiting statement saw is still there or has gone for good, whatever the others do. */
  lemma SeenOrGone(s: State, e: Event, used: set<Key>, x: TxState, p: Key)
    requires DeletedByOne(s) && Enabled(Locking, s, e) && KeysMade(s, e) !! used && p in used
    requires p in View(s.committed, x) || Gone(s, p)
    ensures p in View(Apply(Locking, s, e).committed, x) || Gone(Apply(Locking, s, e), p)
  {
    if Gone(s, p) {
      GoneStays(s, e, used, p);
    } else if e.Commit? && p in s.txs[e.tx].deleted && p !in View(s.committed, s.txs[e.tx]) {
      DeletedIsGone(s, e, p);
    }
  }

  lemma OthersStayTracked(s: State, e: Event, used: set<Key>, x: TxState)
    requires DeletedByOne(s) && Enabled(Locking, s, e) && KeysMade(s, e) !! used && ParentTracked(s, x, used)
    ensures ParentTracked(Apply(Locking, s, e), x, used + KeysMade(s, e))
  {
    if x.stage.Started? {
      SeenOrGone(s, e, used, x, ParentKey(x.stage.w.key.table, x.stage.w.parent));
    } else if (x.stage.Locked? || x.stage.Checked?) && !x.stage.found {
      GoneStays(s, e, used, ParentKey(x.stage.w.key.table, x.stage.w.parent));
    }
  }

  lemma SeenIsUsed(s: State, used: set<Key>, t: Tx, p: Key)
    requires KeysUsed(s, used) && t in s.txs && p in View(s.committed, s.txs[t])
    ensures p in used
  {
    assert p in s.committed || InWork(s.txs[t], p);
  }

  /** A lock statement misses its parent only if it has gone. */
  lemma LockTracks(s: State, e: Event, used: set<Key>)
    requires Enabled(Locking, s, e) && (e.LockParent? || e.CheckOpposite?)
    requires KeysMade(s, e) !! used && ParentTracked(s, s.txs[e.tx], used)
    ensures ParentTracked(Apply(Locking, s, e), Apply(Locking, s, e).txs[e.tx], used)
  {
    var x := s.txs[e.tx];
    var p := ParentKey(x.stage.w.key.table, x.stage.w.parent);
    if (e.LockParent? && p !in View(s.committed, x)) || (e.CheckOpposite? && !x.stage.found) {
      GoneStays(s, e, used, p);
    }
  }

  lemma StartTracks(s: State, e: Event, used: set<Key>)
    requires Enabled(Locking, s, e) && (e.StartInsert? || e.StartUpdate?) && KeysUsed(s, used) && NamesSeenParent(s, e)
    ensures ParentTracked(Apply(Locking, s, e), Apply(Locking, s, e).txs[e.tx], used)
  {
    SeenIsUsed(s, used, e.tx, ParentKey(e.key.table, e.parent));
  }

  lemma OwnStaysTracked(s: State, e: Event, used: set<Key>)
    requires KeysUsed(s, used) && Enabled(Locking, s, e) && e.tx in s.txs && e.tx in Apply(Locking, s, e).txs
    requires NamesSeenParent(s, e) && KeysMade(s, e) !! used && ParentTracked(s, s.txs[e.tx], used)
    ensures ParentTracked(Apply(Locking, s, e), Apply(Locking, s, e).txs[e.tx], used + KeysMade(s, e))
  {
    if e.LockParent? || e.CheckOpposite? {
      LockTracks(s, e, used);
    } else if e.StartInsert? || e.StartUpdate? {
      StartTracks(s, e, used);
    }
  }

  lemma OthersAreUntouched(s: State, e: Event, t: Tx)
    requires Enabled(Locking, s, e) && t in Apply(Locking, s, e).txs && t != e.tx
    ensures t in s.txs && Apply(Locking, s, e).txs[t] == s.txs[t]
  {
  }

  lemma TxStaysTracked(s: State, e: Event, used: set<Key>, t: Tx)
    requires Tracked(s, used) && DeletedByOne(s) && Enabled(Locking, s, e)
    requires NamesSeenParent(s, e) && KeysMade(s, e) !! used && t in Apply(Locking, s, e).txs
    ensures ParentTracked(Apply(Locking, s, e), Apply(Locking, s, e).txs[t], used + KeysMade(s, e))
  {
    if t != e.tx {
      OthersAreUntouched(s, e, t);
      OthersStayTracked(s, e, used, s.txs[t]);
    } else if t in s.txs {
      OwnStaysTracked(s, e, used);
    }
  }

  lemma StepTracks(s: State, e: Event, used: set<Key>)
    requires Tracked(s, used) && DeletedByOne(s) && Enabled(Locking, s, e)
    requires NamesSeenParent(s, e) && KeysMade(s, e) !! used
    ensures Tracked(Apply(Locking, s, e), used + KeysMade(s, e))
  {
    KeysStayUsed(s, e, used);
    forall t | t in Apply(Locking, s, e).txs
      ensures ParentTracked(Apply(Locking, s, e), Apply(Locking, s, e).txs[t], used + KeysMade(s, e))
    {
      TxStaysTracked(s, e, used, t);
    }
  }

  lemma TrackedNeverWritesUnlocked(s: State, e: Event, used: set<Key>)
    requires Tracked(s, used)
    ensures !WritesUnlocked(s, e)
  {
    if e.WriteRow? && e.tx in s.txs {
      assert ParentTracked(s, s.txs[e.tx], used);
    }
  }

  lemma {:induction false} WellBehavedIsAnchored(s: State, es: seq<Event>, used: set<Key>)
    requires Inv(s) && Tracked(s, used) && IsRun(Locking, s, es)
    requires SeesParents(s, es) && FreshKeys(s, es, used)
    ensures Anchored(Locking, s, es)
    decreases |es|
  {
    if es != [] {
      TrackedNeverWritesUnlocked(s, es[0], used);
      StepKeeps(s, es[0]);
      InvDeletesByOne(s);
      StepTracks(s, es[0], used);
      WellBehavedIsAnchored(Apply(Locking, s, es[0]), es[1..], used + KeysMade(s, es[0]));
    }
  }

  /** The promise in the clients' terms: if they insert children only for parents they see and keys
      come from sequences, then from any quiet database with sound tables, whatever the interleaving,
      the tables stay sound and the run is equivalent to a serial one. */
  lemma WellBehavedRunsAreSound(s: State, es: seq<Event>, used: set<Key>)
    requires Quiet(s) && Sound(s.committed) && s.committed.Keys <= used
    requires IsRun(Locking, s, es) && SeesParents(s, es) && FreshKeys(s, es, used)
    ensures Anchored(Locking, s, es)
    ensures Sound(After(Locking, s, es).committed)
    ensures SerialAll(s.committed, PostAll(Opened(s.committed), es).history) == Some(After(Locking, s, es).committed)
  {
    WellBehavedIsAnchored(s, es, used);
    RunIsSound(s, es);
    RunIsSerializable(s, es);
  }
}
