/** The exclusion triggers as a step system.

    Two pairs of result tables hang off a parent row: an article has a curation or a
    curation noise, and a curation has an analyzed article or an out-of-scope article.
    Each table has a BEFORE INSERT OR UPDATE trigger that locks the parent row, looks for a
    row of the opposite table, and lets the write go on. One step below is one SQL statement
    of a READ COMMITTED transaction: it sees the committed rows plus its own.
 */
module ExclusionModel {

  type Tx = nat

  datatype Table = Article | Curation | Noise | Analyzed | OutOfScope

  datatype Key = Key(table: Table, id: nat)

  /** A row is its primary key together with the parent id in its foreign key column
      (articles have no parent; theirs is 0). */
  type Rows = map<Key, nat>

  function Opposite(t: Table): Table {
    match t
    case Article => Article
    case Curation => Noise
    case Noise => Curation
    case Analyzed => OutOfScope
    case OutOfScope => Analyzed
  }

  function ParentTable(t: Table): Table {
    match t
    case Analyzed => Curation
    case OutOfScope => Curation
    case _ => Article
  }

  predicate IsChild(k: Key) { k.table != Article }

  function ParentKey(t: Table, parent: nat): Key {
    Key(ParentTable(t), parent)
  }

  /** Some row of table `t` other than `self` refers to `parent`. */
  predicate HasRow(rows: Rows, t: Table, parent: nat, self: Key) {
    exists k :: k in rows && k.table == t && rows[k] == parent && k != self
  }

  // ---- Row locks -----------------------------------------------------------------------

  /** FOR KEY SHARE (foreign key checks), FOR NO KEY UPDATE (the triggers), FOR UPDATE
      (deletes, updates of the key columns, and a row's own uncommitted insert). */
  datatype Mode = KeyShare | NoKeyUpdate | Update

  predicate Conflict(a: Mode, b: Mode) {
    a.Update? || b.Update? || (a.NoKeyUpdate? && b.NoKeyUpdate?)
  }

  datatype Lock = Lock(tx: Tx, key: Key, mode: Mode)

  /** No other transaction holds a conflicting lock, so `t` does not wait. */
  predicate Free(locks: set<Lock>, t: Tx, key: Key, mode: Mode) {
    forall l <- locks :: l.key == key && l.tx != t ==> !Conflict(l.mode, mode)
  }

  // ---- Transactions --------------------------------------------------------------------

  /** The NEW row of a write to a child table, and whether it is an INSERT or an UPDATE. */
  datatype Write = Write(key: Key, parent: nat, update: bool)

  /** Where the trigger of the current statement stands. `found` says whether the lock
      statement found a parent row to lock. */
  datatype Stage =
    | Idle
    | Started(w: Write)
    | Locked(w: Write, found: bool)
    | Checked(w: Write, found: bool)
    | Failed

  /** A completed statement, as the client asked for it. */
  datatype Op =
    | NewArticle(key: Key)
    | Insert(key: Key, parent: nat)
    | Change(key: Key, parent: nat)
    | Delete(key: Key)

  /** A savepoint: the work and the locks of the transaction when it was set. */
  datatype Save = Save(written: Rows, deleted: set<Key>, ops: seq<Op>, kept: set<Lock>)

  /** Uncommitted work: rows written, rows deleted, the statements done so far; and the
      savepoints, innermost last. */
  datatype TxState = TxState(written: Rows, deleted: set<Key>, ops: seq<Op>, stage: Stage, saves: seq<Save>)

  datatype State = State(committed: Rows, txs: map<Tx, TxState>, locks: set<Lock>)

  const EMPTY := State(map[], map[], {})

  /** No transaction is open. */
  predicate Quiet(s: State) {
    s.txs == map[] && s.locks == {}
  }

  /** A transaction that has done nothing yet. */
  const NEW := TxState(map[], {}, [], Idle, [])

  /** What a statement of the transaction sees. */
  function View(committed: Rows, x: TxState): Rows {
    (committed - x.deleted) + x.written
  }

  /** No row, committed or not, has this key; keys come from sequences. */
  predicate Unused(s: State, k: Key) {
    && k !in s.committed
    && (forall l <- s.locks :: l.key != k)
  }

  /** `u` has an uncommitted row that would take the parent's unique key, or has locked a
      committed row that holds it. */
  predicate TakesKey(s: State, u: Tx, w: Write)
    requires u in s.txs
  {
    || (exists k <- s.txs[u].written ::
          k != w.key && k.table == w.key.table && s.txs[u].written[k] == w.parent)
    || (exists k <- s.committed ::
          k != w.key && k.table == w.key.table && s.committed[k] == w.parent && Lock(u, k, Update) in s.locks)
  }

  /** A unique check waits for the other transaction instead of failing. */
  predicate UniqueWaits(s: State, t: Tx, w: Write) {
    exists u <- s.txs :: u != t && TakesKey(s, u, w)
  }

  // ---- Steps ---------------------------------------------------------------------------

  /** With LockFree the triggers are the ones in force before z33: no lock statement. */
  datatype Protocol = Locking | LockFree

  /** `SkipRow` is the end of an INSERT with ON CONFLICT DO NOTHING whose unique key is taken.
      `RollbackTo` goes back to the innermost savepoint, also after a statement that failed. */
  datatype Event =
    | Begin(tx: Tx)
    | CreateArticle(tx: Tx, id: nat)
    | StartInsert(tx: Tx, key: Key, parent: nat)
    | StartUpdate(tx: Tx, key: Key, parent: nat)
    | LockParent(tx: Tx)
    | CheckOpposite(tx: Tx)
    | WriteRow(tx: Tx)
    | SkipRow(tx: Tx)
    | Savepoint(tx: Tx)
    | RollbackTo(tx: Tx)
    | Release(tx: Tx)
    | DeleteRow(tx: Tx, key: Key)
    | Commit(tx: Tx)
    | Abort(tx: Tx)

  predicate Enabled(proto: Protocol, s: State, e: Event) {
    if e.Begin? then e.tx !in s.txs && (forall l <- s.locks :: l.tx != e.tx)
    else e.tx in s.txs && EnabledIn(proto, s, e, s.txs[e.tx])
  }

  predicate EnabledIn(proto: Protocol, s: State, e: Event, x: TxState) {
    var view := View(s.committed, x);
    match e
    case Begin(_) => false
    case CreateArticle(t, id) => x.stage.Idle? && Unused(s, Key(Article, id))
    case StartInsert(t, k, p) => x.stage.Idle? && IsChild(k)
    case StartUpdate(t, k, p) => x.stage.Idle? && IsChild(k) && k in view && Free(s.locks, t, k, Update)
    case LockParent(t) =>
      && proto.Locking? && x.stage.Started?
      && var parent := ParentKey(x.stage.w.key.table, x.stage.w.parent);
         (parent in view ==> Free(s.locks, t, parent, NoKeyUpdate))
    case CheckOpposite(t) => if proto.Locking? then x.stage.Locked? else x.stage.Started?
    case WriteRow(t) =>
      && x.stage.Checked?
      && var w := x.stage.w; var parent := ParentKey(w.key.table, w.parent);
         && (!w.update ==> Unused(s, w.key))
         && (parent in view ==> Free(s.locks, t, parent, KeyShare))
         && !UniqueWaits(s, t, w)
    case SkipRow(t) =>
      && x.stage.Checked?
      && var w := x.stage.w;
         !w.update && !UniqueWaits(s, t, w) && HasRow(view, w.key.table, w.parent, w.key)
    case Savepoint(t) => x.stage.Idle?
    case RollbackTo(t) => x.saves != []
    case Release(t) => x.stage.Idle? && x.saves != []
    case DeleteRow(t, k) => x.stage.Idle? && k in view && Free(s.locks, t, k, Update)
    case Commit(t) => x.stage.Idle? && CascadeDone(view, x.deleted)
    case Abort(t) => true
  }

  /** ON DELETE CASCADE has run: nothing the transaction can see refers to a row it deleted. */
  predicate CascadeDone(view: Rows, deleted: set<Key>) {
    forall k <- view :: IsChild(k) ==> ParentKey(k.table, view[k]) !in deleted
  }

  function Apply(proto: Protocol, s: State, e: Event): State
    requires Enabled(proto, s, e)
  {
    if e.Begin? then s.(txs := s.txs[e.tx := NEW])
    else
      var x := s.txs[e.tx];
      match e
      case Commit(t) => Finish(s, t, View(s.committed, x))
      case Abort(t) => Finish(s, t, s.committed)
      case RollbackTo(t) => s.(txs := s.txs[t := BackTo(x)], locks := LocksBackTo(s.locks, t, x))
      case _ => s.(txs := s.txs[e.tx := ApplyIn(s, e, x)], locks := s.locks + NewLocks(s, e, x))
  }

  function Finish(s: State, t: Tx, committed: Rows): State {
    State(committed, s.txs - {t}, set l <- s.locks | l.tx != t)
  }

  /** The innermost savepoint stays, so it can be rolled back to again. */
  function BackTo(x: TxState): TxState
    requires x.saves != []
  {
    Saved(x.saves[|x.saves| - 1]).(saves := x.saves)
  }

  function Saved(v: Save): TxState {
    TxState(v.written, v.deleted, v.ops, Idle, [])
  }

  /** Rolling back to a savepoint releases the locks taken since. */
  function LocksBackTo(locks: set<Lock>, t: Tx, x: TxState): set<Lock>
    requires x.saves != []
  {
    set l <- locks | l.tx != t || l in x.saves[|x.saves| - 1].kept
  }

  function LocksOf(locks: set<Lock>, t: Tx): set<Lock> {
    set l <- locks | l.tx == t
  }

  /** The locks a step takes; they are kept until the transaction or its savepoint ends. */
  function NewLocks(s: State, e: Event, x: TxState): set<Lock> {
    match e
    case CreateArticle(t, id) => {Lock(t, Key(Article, id), Update)}
    case StartUpdate(t, k, _) => {Lock(t, k, Update)}
    case DeleteRow(t, k) => {Lock(t, k, Update)}
    case LockParent(t) =>
      if !x.stage.Started? then {} else
      var parent := ParentKey(x.stage.w.key.table, x.stage.w.parent);
      if parent in View(s.committed, x) then {Lock(t, parent, NoKeyUpdate)} else {}
    case WriteRow(t) =>
      if !x.stage.Checked? || !WriteSucceeds(View(s.committed, x), x.stage.w) then {} else
      var w := x.stage.w;
      {Lock(t, w.key, Update), Lock(t, ParentKey(w.key.table, w.parent), KeyShare)}
    case _ => {}
  }

  /** The foreign key finds its parent and the parent's unique key is not taken. */
  predicate WriteSucceeds(view: Rows, w: Write) {
    && ParentKey(w.key.table, w.parent) in view
    && !HasRow(view, w.key.table, w.parent, w.key)
    && (w.update ==> w.key in view)
  }

  function ApplyIn(s: State, e: Event, x: TxState): TxState {
    match e
    case CreateArticle(t, id) =>
      x.(written := x.written[Key(Article, id) := 0], ops := x.ops + [NewArticle(Key(Article, id))])
    case StartInsert(t, k, p) => x.(stage := Started(Write(k, p, false)))
    case StartUpdate(t, k, p) => x.(stage := Started(Write(k, p, true)))
    case LockParent(t) =>
      if !x.stage.Started? then x else
      x.(stage := Locked(x.stage.w,
                         ParentKey(x.stage.w.key.table, x.stage.w.parent) in View(s.committed, x)))
    case CheckOpposite(t) =>
      if x.stage.Locked? || x.stage.Started? then
        var w := x.stage.w;
        if HasRow(View(s.committed, x), Opposite(w.key.table), w.parent, w.key) then x.(stage := Failed)
        else x.(stage := Checked(w, x.stage.Locked? && x.stage.found))
      else x
    case WriteRow(t) =>
      if !x.stage.Checked? then x else
      var w := x.stage.w;
      if WriteSucceeds(View(s.committed, x), w) then
        TxState(x.written[w.key := w.parent], x.deleted,
                x.ops + [if w.update then Change(w.key, w.parent) else Insert(w.key, w.parent)], Idle, x.saves)
      else x.(stage := Failed)
    case SkipRow(t) => x.(stage := Idle)
    case Savepoint(t) => x.(saves := x.saves + [Save(x.written, x.deleted, x.ops, LocksOf(s.locks, t))])
    case Release(t) => if x.saves == [] then x else x.(saves := x.saves[..|x.saves| - 1])
    case DeleteRow(t, k) =>
      x.(written := x.written - {k}, deleted := x.deleted + {k}, ops := x.ops + [Delete(k)])
    case _ => x
  }

  // ---- Runs ----------------------------------------------------------------------------

  /** A run of the protocol from `s`: any interleaving of any number of transactions. */
  predicate IsRun(proto: Protocol, s: State, es: seq<Event>)
    decreases |es|
  {
    es == [] || (Enabled(proto, s, es[0]) && IsRun(proto, Apply(proto, s, es[0]), es[1..]))
  }

  function After(proto: Protocol, s: State, es: seq<Event>): State
    requires IsRun(proto, s, es)
    decreases |es|
  {
    if es == [] then s else After(proto, Apply(proto, s, es[0]), es[1..])
  }

  /** The step lets a row through although its lock statement had found no parent row. */
  predicate WritesUnlocked(s: State, e: Event) {
    && e.WriteRow? && e.tx in s.txs
    && var x := s.txs[e.tx];
       x.stage.Checked? && !x.stage.found && WriteSucceeds(View(s.committed, x), x.stage.w)
  }

  /** Every row the run writes had its parent locked: the parent was there beforehand. */
  predicate Anchored(proto: Protocol, s: State, es: seq<Event>)
    requires IsRun(proto, s, es)
    decreases |es|
  {
    es == [] ||
    (!WritesUnlocked(s, es[0]) && Anchored(proto, Apply(proto, s, es[0]), es[1..]))
  }

  // ---- What the tables promise -----------------------------------------------------------

  /** No parent has a row in both tables of a pair. */
  predicate Exclusive(rows: Rows) {
    forall j, k :: j in rows && k in rows && IsChild(j) && k.table == Opposite(j.table) ==>
      rows[j] != rows[k]
  }

  /** UNIQUE on every parent column. */
  predicate UniqueParents(rows: Rows) {
    forall j, k :: j in rows && k in rows && IsChild(j) && k.table == j.table && rows[j] == rows[k] ==>
      j == k
  }

  predicate Closed(rows: Rows) {
    forall k <- rows :: IsChild(k) ==> ParentKey(k.table, rows[k]) in rows
  }

  predicate Sound(rows: Rows) {
    Exclusive(rows) && UniqueParents(rows) && Closed(rows)
  }
}
