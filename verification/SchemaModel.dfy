/** Tables with rows, and what a schema operation does to them. */
module SchemaModel {
  import opened Prelude

  /** A cell is NULL or a value of some column type. */
  datatype Cell = Null | Value(typ: nat, v: int)

  type Row = map<string, Cell>

  /** `default` is Null for a column without one. */
  datatype Column = Column(typ: nat, nullable: bool, default: Cell)

  /** CHECK looks only at the columns it names. */
  datatype Check = Check(cols: set<string>, holds: Row -> bool)

  datatype ForeignKey = ForeignKey(col: string, table: Table, refCol: string)

  datatype Table = Table(schema: Option<string>, name: string)

  datatype Def = Def(cols: map<string, Column>, checks: seq<Check>, uniques: set<set<string>>,
                     fks: set<ForeignKey>, rows: seq<Row>)

  type Db = map<Table, Def>

  // ---- Rows -------------------------------------------------------------------------------

  function Restrict(r: Row, cols: set<string>): Row {
    map c | c in r && c in cols :: r[c]
  }

  predicate CellFits(c: Cell, col: Column) {
    if c.Null? then col.nullable else c.typ == col.typ
  }

  ghost predicate RowFits(d: Def, r: Row) {
    && r.Keys == d.cols.Keys
    && (forall c <- d.cols :: CellFits(r[c], d.cols[c]))
    && (forall k <- d.checks :: k.holds(Restrict(r, k.cols)))
  }

  /** NULLs never collide. */
  ghost predicate Collides(r: Row, other: Row, cols: set<string>) {
    forall c <- cols :: c in r && c in other && r[c] == other[c] && !r[c].Null?
  }

  ghost predicate Refers(db: Db, r: Row, fk: ForeignKey) {
    fk.col in r && (r[fk.col].Null? ||
      (fk.table in db && exists o <- db[fk.table].rows :: fk.refCol in o && o[fk.refCol] == r[fk.col]))
  }

  /** Constraints name only columns the table has. */
  ghost predicate DefOk(d: Def) {
    && (forall k <- d.checks :: k.cols <= d.cols.Keys)
    && (forall u <- d.uniques :: u <= d.cols.Keys)
    && (forall r <- d.rows :: RowFits(d, r))
  }

  ghost predicate DbOk(db: Db) { forall t <- db :: DefOk(db[t]) }

  // ---- Inserts -----------------------------------------------------------------------------

  /** An INSERT that names some columns; the others get their defaults. */
  datatype Insert = Insert(table: Table, given: Row)

  function Completed(d: Def, given: Row): Row {
    map c | c in d.cols :: if c in given then given[c] else d.cols[c].default
  }

  ghost predicate Accepts(db: Db, i: Insert) {
    && i.table in db
    && var d := db[i.table];
       var r := Completed(d, i.given);
       && i.given.Keys <= d.cols.Keys
       && RowFits(d, r)
       && (forall u <- d.uniques :: forall o <- d.rows :: !Collides(r, o, u))
       && (forall fk <- d.fks :: Refers(db, r, fk))
  }

  // ---- Operations ----------------------------------------------------------------------------

  /** Schema operations as Alembic issues them, the dangerous ones included. `Other` is
      anything else; its effect is arbitrary. */
  datatype Op =
    | CreateTable(table: Table, def: Def)
    | DropTable(table: Table)
    | AddColumn(table: Table, name: string, col: Column, unique: bool)
    | DropColumn(table: Table, name: string)
    | AlterColumn(table: Table, name: string, nullable: Option<bool>, default: Option<Cell>, typ: Option<nat>)
    | AddUnique(table: Table, cols: set<string>)
    | PlainIndex(table: Table)
    | Other(effect: Db -> Option<Db>)

  /** None when the server refuses the statement. */
  function Run(db: Db, op: Op): Option<Db> {
    match op
    case CreateTable(t, d) => if t !in db && d.rows == [] then Some(db[t := d]) else None
    case DropTable(t) => if t in db then Some(db - {t}) else None
    case AddColumn(t, c, col, unique) =>
      if t in db && c !in db[t].cols && (col.default.Null? || col.default.typ == col.typ)
         && (col.nullable || !col.default.Null? || db[t].rows == [])
      then Some(db[t := WithColumn(db[t], c, col, unique)]) else None
    case DropColumn(t, c) =>
      if t in db then Some(db[t := WithoutColumn(db[t], c)]) else None
    case AlterColumn(t, c, nullable, default, typ) =>
      if t in db && c in db[t].cols then
        var was := db[t].cols[c];
        var col := Column(if typ.Some? then typ.value else was.typ,
                          if nullable.Some? then nullable.value else was.nullable,
                          if default.Some? then default.value else was.default);
        Some(db[t := db[t].(cols := db[t].cols[c := col])])
      else None
    case AddUnique(t, cols) => if t in db then Some(db[t := db[t].(uniques := db[t].uniques + {cols})]) else None
    case PlainIndex(t) => if t in db then Some(db) else None
    case Other(effect) => effect(db)
  }

  function WithColumn(d: Def, c: string, col: Column, unique: bool): Def {
    d.(cols := d.cols[c := col],
       uniques := if unique then d.uniques + {{c}} else d.uniques,
       rows := seq(|d.rows|, i requires 0 <= i < |d.rows| => d.rows[i][c := col.default]))
  }

  function WithoutColumn(d: Def, c: string): Def {
    d.(cols := d.cols - {c},
       rows := seq(|d.rows|, i requires 0 <= i < |d.rows| => d.rows[i] - {c}))
  }

  function RunAll(db: Db, ops: seq<Op>): Option<Db>
    decreases |ops|
  {
    if ops == [] then Some(db)
    else match Run(db, ops[0])
      case None => None
      case Some(d) => RunAll(d, ops[1..])
  }

  // ---- Compatibility ------------------------------------------------------------------------------

  /** A column no old client mentions can be filled in for it. */
  predicate Fillable(col: Column) {
    (col.default.Null? && col.nullable) || (!col.default.Null? && col.default.typ == col.typ)
  }

  ghost predicate DefExtends(was: Def, now: Def) {
    && was.cols.Keys <= now.cols.Keys
    && (forall c <- was.cols :: now.cols[c].typ == was.cols[c].typ && now.cols[c].default == was.cols[c].default
                                && (was.cols[c].nullable ==> now.cols[c].nullable))
    && (forall c <- now.cols :: c !in was.cols ==> Fillable(now.cols[c]))
    && now.checks == was.checks && now.uniques == was.uniques && now.fks == was.fks
    && |now.rows| == |was.rows|
    && (forall i :: 0 <= i < |was.rows| ==> Restrict(now.rows[i], was.cols.Keys) == was.rows[i])
  }

  /** Every table, column and value is still there and constraints only got weaker. */
  ghost predicate Extends(was: Db, now: Db) {
    forall t <- was :: t in now && DefExtends(was[t], now[t])
  }

  /** The operations an expand revision is made of. */
  ghost predicate Harmless(op: Op) {
    match op
    case CreateTable(_, d) => DefOk(d)
    case AddColumn(_, _, col, unique) => !unique && (col.nullable || !col.default.Null?)
    case AlterColumn(_, _, nullable, default, typ) => nullable == Some(true) && default.None? && typ.None?
    case PlainIndex(_) => true
    case Other(effect) => forall db: Db :: effect(db) == Some(db)
    case _ => false
  }

  lemma RestrictTwice(r: Row, a: set<string>, b: set<string>)
    requires a <= b
    ensures Restrict(Restrict(r, b), a) == Restrict(r, a)
  {
  }

  lemma DefExtendsTrans(a: Def, b: Def, c: Def)
    requires DefExtends(a, b) && DefExtends(b, c)
    ensures DefExtends(a, c)
  {
    forall i | 0 <= i < |a.rows|
      ensures Restrict(c.rows[i], a.cols.Keys) == a.rows[i]
    {
      RestrictTwice(c.rows[i], a.cols.Keys, b.cols.Keys);
      assert Restrict(b.rows[i], a.cols.Keys) == a.rows[i];
      assert Restrict(c.rows[i], b.cols.Keys) == b.rows[i];
    }
    forall n | n in c.cols && n !in a.cols
      ensures Fillable(c.cols[n])
    {
      if n in b.cols {
        assert Fillable(b.cols[n]);
      }
    }
  }

  lemma DefExtendsRefl(d: Def)
    requires DefOk(d)
    ensures DefExtends(d, d)
  {
    forall i | 0 <= i < |d.rows|
      ensures Restrict(d.rows[i], d.cols.Keys) == d.rows[i]
    {
      assert RowFits(d, d.rows[i]);
    }
  }

  lemma RestrictSame(r: Row, more: Row, cols: set<string>, keep: set<string>)
    requires cols <= keep && Restrict(more, keep) == r
    ensures Restrict(more, cols) == Restrict(r, cols)
  {
    RestrictTwice(more, cols, keep);
  }

  lemma WithColumnOk(d: Def, c: string, col: Column)
    requires DefOk(d) && c !in d.cols && Fillable(col)
    ensures DefExtends(d, WithColumn(d, c, col, false)) && DefOk(WithColumn(d, c, col, false))
  {
    var d2 := WithColumn(d, c, col, false);
    forall i | 0 <= i < |d.rows|
      ensures Restrict(d2.rows[i], d.cols.Keys) == d.rows[i] && RowFits(d2, d2.rows[i])
    {
      assert RowFits(d, d.rows[i]);
      assert Restrict(d2.rows[i], d.cols.Keys) == d.rows[i];
      forall k | k in d2.checks
        ensures k.holds(Restrict(d2.rows[i], k.cols))
      {
        RestrictSame(d.rows[i], d2.rows[i], k.cols, d.cols.Keys);
        assert Restrict(d.rows[i], k.cols) == Restrict(d2.rows[i], k.cols);
      }
    }
    forall r | r in d2.rows
      ensures RowFits(d2, r)
    {
      var i :| 0 <= i < |d2.rows| && d2.rows[i] == r;
      assert RowFits(d2, d2.rows[i]);
    }
  }

  lemma LoosenOk(d: Def, c: string)
    requires DefOk(d) && c in d.cols
    ensures var d2 := d.(cols := d.cols[c := d.cols[c].(nullable := true)]);
            DefExtends(d, d2) && DefOk(d2)
  {
    var d2 := d.(cols := d.cols[c := d.cols[c].(nullable := true)]);
    DefExtendsRefl(d);
    assert d2.cols.Keys == d.cols.Keys;
    forall r | r in d2.rows
      ensures RowFits(d2, r)
    {
      assert RowFits(d, r);
    }
  }

  /** One harmless operation, if the server accepts it, extends the database. */
  lemma HarmlessExtends(db: Db, op: Op)
    requires DbOk(db) && Harmless(op) && Run(db, op).Some?
    ensures Extends(db, Run(db, op).value) && DbOk(Run(db, op).value)
  {
    forall t | t in db
      ensures DefExtends(db[t], db[t])
    {
      DefExtendsRefl(db[t]);
    }
    match op
    case AddColumn(t, c, col, _) => WithColumnOk(db[t], c, col);
    case AlterColumn(t, c, _, _, _) =>
      LoosenOk(db[t], c);
    case _ =>
  }

  lemma {:induction false} HarmlessRunExtends(db: Db, ops: seq<Op>)
    requires DbOk(db) && RunAll(db, ops).Some?
    requires forall op <- ops :: Harmless(op)
    ensures Extends(db, RunAll(db, ops).value) && DbOk(RunAll(db, ops).value)
    decreases |ops|
  {
    if ops == [] {
      forall t | t in db
        ensures DefExtends(db[t], db[t])
      {
        DefExtendsRefl(db[t]);
      }
    } else {
      var next := Run(db, ops[0]).value;
      HarmlessExtends(db, ops[0]);
      HarmlessRunExtends(next, ops[1..]);
      var last := RunAll(next, ops[1..]).value;
      forall t | t in db
        ensures t in last && DefExtends(db[t], last[t])
      {
        DefExtendsTrans(db[t], next[t], last[t]);
      }
    }
  }

  // ---- Old clients go on working --------------------------------------------------------------------

  lemma CompletedRestricts(was: Def, now: Def, given: Row)
    requires DefExtends(was, now) && given.Keys <= was.cols.Keys
    ensures Restrict(Completed(now, given), was.cols.Keys) == Completed(was, given)
  {
  }

  lemma RowStillFits(was: Def, now: Def, given: Row)
    requires DefExtends(was, now) && DefOk(was) && given.Keys <= was.cols.Keys
    requires RowFits(was, Completed(was, given))
    ensures RowFits(now, Completed(now, given))
  {
    var r, r2 := Completed(was, given), Completed(now, given);
    CompletedRestricts(was, now, given);
    forall k | k in now.checks
      ensures k.holds(Restrict(r2, k.cols))
    {
      RestrictSame(r, r2, k.cols, was.cols.Keys);
    }
  }

  lemma UniquesStillHold(was: Def, now: Def, given: Row, u: set<string>, o: Row)
    requires DefExtends(was, now) && DefOk(was) && given.Keys <= was.cols.Keys
    requires u in was.uniques && o in now.rows
    requires forall p <- was.rows :: !Collides(Completed(was, given), p, u)
    ensures !Collides(Completed(now, given), o, u)
  {
    var i :| 0 <= i < |now.rows| && now.rows[i] == o;
    var p := was.rows[i];
    assert Restrict(now.rows[i], was.cols.Keys) == p;
    CompletedRestricts(was, now, given);
    assert !Collides(Completed(was, given), p, u);
    if Collides(Completed(now, given), o, u) {
      forall c | c in u
        ensures c in Completed(was, given) && c in p && Completed(was, given)[c] == p[c] && !p[c].Null?
      {
        assert c in Restrict(o, was.cols.Keys) && c in Restrict(Completed(now, given), was.cols.Keys);
      }
      assert false;
    }
  }

  lemma ReferenceStillHolds(was: Db, now: Db, t: Table, given: Row, fk: ForeignKey)
    requires Extends(was, now) && t in was && given.Keys <= was[t].cols.Keys
    requires Refers(was, Completed(was[t], given), fk)
    ensures Refers(now, Completed(now[t], given), fk)
  {
    CompletedRestricts(was[t], now[t], given);
    var r, r2 := Completed(was[t], given), Completed(now[t], given);
    assert fk.col in Restrict(r2, was[t].cols.Keys);
    if !r[fk.col].Null? {
      var d, d2 := was[fk.table], now[fk.table];
      var o :| o in d.rows && fk.refCol in o && o[fk.refCol] == r[fk.col];
      var i :| 0 <= i < |d.rows| && d.rows[i] == o;
      assert DefExtends(d, d2);
      assert Restrict(d2.rows[i], d.cols.Keys) == o;
      assert d2.rows[i] in d2.rows && fk.refCol in d2.rows[i];
    }
  }

  /** Whatever the old schema accepted, an extension of it accepts. */
  lemma ExtensionAcceptsOldInserts(was: Db, now: Db, i: Insert)
    requires Extends(was, now) && DbOk(was) && Accepts(was, i)
    ensures Accepts(now, i)
  {
    var d, d2 := was[i.table], now[i.table];
    RowStillFits(d, d2, i.given);
    forall u, o | u in d2.uniques && o in d2.rows
      ensures !Collides(Completed(d2, i.given), o, u)
    {
      UniquesStillHold(d, d2, i.given, u, o);
    }
    forall fk | fk in d2.fks
      ensures Refers(now, Completed(d2, i.given), fk)
    {
      ReferenceStillHolds(was, now, i.table, i.given, fk);
    }
  }

  /** For an added column the condition is exact: an insert that worked goes on working if and
      only if the column can be filled in. */
  lemma AddColumnExactly(db: Db, t: Table, c: string, col: Column, i: Insert)
    requires DbOk(db) && Accepts(db, i) && i.table == t && Run(db, AddColumn(t, c, col, false)).Some?
    ensures Accepts(Run(db, AddColumn(t, c, col, false)).value, i) <==> Fillable(col)
  {
    var now := Run(db, AddColumn(t, c, col, false)).value;
    if Fillable(col) {
      HarmlessExtends(db, AddColumn(t, c, col, false));
      ExtensionAcceptsOldInserts(db, now, i);
    } else {
      assert Completed(now[t], i.given)[c] == col.default;
      assert !CellFits(col.default, now[t].cols[c]);
    }
  }
}
