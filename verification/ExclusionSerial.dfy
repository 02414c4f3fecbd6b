/** The reference the protocol is measured against: one transaction at a time, with no locks.
    A statement simply looks for the opposite row, the unique key and the foreign key. */
module ExclusionSerial {
  import opened Prelude
  import opened ExclusionModel

  predicate MayPlace(db: Rows, k: Key, parent: nat) {
    && IsChild(k)
    && ParentKey(k.table, parent) in db
    && !HasRow(db, Opposite(k.table), parent, k)
    && !HasRow(db, k.table, parent, k)
  }

  function SerialOp(db: Rows, op: Op): Option<Rows> {
    match op
    case NewArticle(k) => if k.table == Article && k !in db then Some(db[k := 0]) else None
    case Insert(k, p) => if k !in db && MayPlace(db, k, p) then Some(db[k := p]) else None
    case Change(k, p) => if k in db && MayPlace(db, k, p) then Some(db[k := p]) else None
    case Delete(k) => if k in db then Some(db - {k}) else None
  }

  function SerialTx(db: Rows, ops: seq<Op>): Option<Rows> {
    if ops == [] then Some(db)
    else match SerialTx(db, ops[..|ops| - 1])
      case None => None
      case Some(d) => SerialOp(d, ops[|ops| - 1])
  }

  lemma SerialAppend(db: Rows, ops: seq<Op>, op: Op)
    requires SerialTx(db, ops).Some?
    ensures SerialTx(db, ops + [op]) == SerialOp(SerialTx(db, ops).value, op)
  {
    assert (ops + [op])[..|ops|] == ops;
  }

  /** Whole transactions one after the other. */
  function SerialAll(db: Rows, history: seq<seq<Op>>): Option<Rows> {
    if history == [] then Some(db)
    else match SerialAll(db, history[..|history| - 1])
      case None => None
      case Some(d) => SerialTx(d, history[|history| - 1])
  }

  lemma SerialAllAppend(db: Rows, history: seq<seq<Op>>, ops: seq<Op>)
    requires SerialAll(db, history).Some?
    ensures SerialAll(db, history + [ops]) == SerialTx(SerialAll(db, history).value, ops)
  {
    assert (history + [ops])[..|history|] == history;
  }

  // ---- Net effect ------------------------------------------------------------------------

  /** Rows written and rows deleted by a list of statements, whatever they start from. */
  function Net(ops: seq<Op>): (Rows, set<Key>) {
    if ops == [] then (map[], {})
    else
      var (written, deleted) := Net(ops[..|ops| - 1]);
      match ops[|ops| - 1]
      case NewArticle(k) => (written[k := 0], deleted)
      case Insert(k, p) => (written[k := p], deleted)
      case Change(k, p) => (written[k := p], deleted)
      case Delete(k) => (written - {k}, deleted + {k})
  }

  lemma NetAppend(ops: seq<Op>, op: Op)
    ensures Net(ops + [op]) ==
            (var (written, deleted) := Net(ops);
             match op
             case NewArticle(k) => (written[k := 0], deleted)
             case Insert(k, p) => (written[k := p], deleted)
             case Change(k, p) => (written[k := p], deleted)
             case Delete(k) => (written - {k}, deleted + {k}))
  {
    assert (ops + [op])[..|ops|] == ops;
  }

  /** A serial execution that succeeds changes exactly its net effect. */
  lemma {:induction false} SerialNet(db: Rows, ops: seq<Op>)
    requires SerialTx(db, ops).Some?
    ensures SerialTx(db, ops).value == (db - Net(ops).1) + Net(ops).0
  {
    if ops != [] {
      var front := ops[..|ops| - 1];
      SerialNet(db, front);
      var v := SerialTx(db, ops).value;
      assert v.Keys == ((db - Net(ops).1) + Net(ops).0).Keys;
    } else {
      assert db - {} == db;
    }
  }

  // ---- What serial execution keeps -------------------------------------------------------

  /** Rows without a parent hang only under rows the transaction deleted. */
  predicate DanglesOnlyUnder(db: Rows, deleted: set<Key>) {
    forall k <- db :: IsChild(k) ==> ParentKey(k.table, db[k]) in db || ParentKey(k.table, db[k]) in deleted
  }

  lemma SerialOpKeeps(db: Rows, op: Op, deleted: set<Key>)
    requires Exclusive(db) && UniqueParents(db) && DanglesOnlyUnder(db, deleted)
    requires SerialOp(db, op).Some?
    requires op.Delete? ==> op.key in deleted
    ensures var d := SerialOp(db, op).value;
            Exclusive(d) && UniqueParents(d) && DanglesOnlyUnder(d, deleted)
  {
    var d := SerialOp(db, op).value;
    if op.Insert? || op.Change? {
      var k := op.key;
      forall j | j in d && IsChild(j) && j != k && j.table in {k.table, Opposite(k.table)}
        ensures d[j] != d[k]
      {
        assert j in db;
        if j.table == k.table {
          assert !HasRow(db, k.table, op.parent, k);
        } else {
          assert !HasRow(db, Opposite(k.table), op.parent, k);
        }
      }
    }
  }

  lemma {:induction false} SerialTxKeeps(db: Rows, ops: seq<Op>, deleted: set<Key>)
    requires Sound(db) && SerialTx(db, ops).Some?
    requires forall op <- ops :: op.Delete? ==> op.key in deleted
    ensures var d := SerialTx(db, ops).value;
            Exclusive(d) && UniqueParents(d) && DanglesOnlyUnder(d, deleted)
  {
    if ops != [] {
      SerialTxKeeps(db, ops[..|ops| - 1], deleted);
      SerialOpKeeps(SerialTx(db, ops[..|ops| - 1]).value, ops[|ops| - 1], deleted);
    }
  }

  /** A serial transaction that leaves no row under a deleted parent keeps the tables sound. */
  lemma SerialTxSound(db: Rows, ops: seq<Op>, deleted: set<Key>)
    requires Sound(db) && SerialTx(db, ops).Some?
    requires forall op <- ops :: op.Delete? ==> op.key in deleted
    requires CascadeDone(SerialTx(db, ops).value, deleted)
    ensures Sound(SerialTx(db, ops).value)
  {
    SerialTxKeeps(db, ops, deleted);
  }
}
