/** What the schema operations of an expand revision are good for: when the server carries them out, and what
    new clients can then insert. */
module SchemaUse {
  import opened Prelude
  import opened SchemaModel
  import opened PyAst
  import Gate = MigrationGate
  import Forms = GateGrammar
  import opened GateMeaning

  // ---- what goes into a table ---------------------------------------------------------------

  /** Without constraints only the columns matter: each one named must exist, and each gets a value of its
      type, or a NULL it admits. */
  lemma PlainInsert(db: Db, i: Insert)
    requires i.table in db && db[i.table].checks == [] && db[i.table].uniques == {} && db[i.table].fks == {}
    ensures Accepts(db, i) <==>
      && (forall c <- i.given :: c in db[i.table].cols)
      && forall c <- db[i.table].cols ::
           var col, cell := db[i.table].cols[c], if c in i.given then i.given[c] else db[i.table].cols[c].default;
           (cell.Null? && col.nullable) || (cell.Value? && cell.typ == col.typ)
  {
    var d := db[i.table];
    var r := Completed(d, i.given);
    forall c | c in d.cols
      ensures r[c] == if c in i.given then i.given[c] else d.cols[c].default
    {
    }
  }

  /** Constraints refuse: a missing value, a repeated one, one nobody has, and one a CHECK rejects. */
  lemma InsertRefused(db: Db, i: Insert, c: string)
    requires i.table in db && c in db[i.table].cols && Accepts(db, i)
    ensures !db[i.table].cols[c].nullable ==>
      if c in i.given then i.given[c].Value? else db[i.table].cols[c].default.Value?
    ensures {c} in db[i.table].uniques && c in i.given && i.given[c].Value? ==>
      forall o <- db[i.table].rows :: c in o ==> o[c] != i.given[c]
    ensures forall t, ref :: ForeignKey(c, t, ref) in db[i.table].fks && c in i.given && i.given[c].Value? ==>
      t in db && exists o <- db[t].rows :: ref in o && o[ref] == i.given[c]
    ensures forall holds :: Check({c}, holds) in db[i.table].checks && c in i.given ==> holds(map[c := i.given[c]])
  {
    var d := db[i.table];
    var r := Completed(d, i.given);
    assert c in r && CellFits(r[c], d.cols[c]);
    forall o | {c} in d.uniques && c in i.given && i.given[c].Value? && o in d.rows && c in o
      ensures o[c] != i.given[c]
    {
      assert !Collides(r, o, {c});
    }
    forall t, ref | ForeignKey(c, t, ref) in d.fks && c in i.given && i.given[c].Value?
      ensures t in db && exists o <- db[t].rows :: ref in o && o[ref] == i.given[c]
    {
      assert Refers(db, r, ForeignKey(c, t, ref));
    }
    forall holds | Check({c}, holds) in d.checks && c in i.given
      ensures holds(map[c := i.given[c]])
    {
      var k := Check({c}, holds);
      assert k.holds(Restrict(r, k.cols)) && Restrict(r, {c}) == map[c := i.given[c]];
    }
  }

  // ---- an added column ------------------------------------------------------------------------

  /** The server adds a column exactly when it is new, its default has its type, and the rows that are there
      fit the table afterwards. */
  lemma AddColumnRuns(db: Db, t: Table, c: string, col: Column)
    requires DbOk(db) && t in db
    ensures Run(db, AddColumn(t, c, col, false)).Some? <==>
      && c !in db[t].cols && (col.default.Null? || col.default.typ == col.typ)
      && DefOk(WithColumn(db[t], c, col, false))
  {
    var d := db[t];
    if c !in d.cols && (col.default.Null? || col.default.typ == col.typ) {
      var d2 := WithColumn(d, c, col, false);
      if Fillable(col) {
        WithColumnOk(d, c, col);
      } else if d.rows != [] {
        assert d2.rows[0] in d2.rows && d2.rows[0][c] == col.default;
        assert !CellFits(d2.rows[0][c], d2.cols[c]);
      }
    }
  }

  /** Every row keeps its values and has the default in the new column; nothing else changes. */
  lemma AddColumnFillsIn(db: Db, t: Table, c: string, col: Column)
    requires DbOk(db) && Run(db, AddColumn(t, c, col, false)).Some?
    ensures var now := Run(db, AddColumn(t, c, col, false)).value;
      && now.Keys == db.Keys && (forall u <- db :: u != t ==> now[u] == db[u])
      && now[t].cols == db[t].cols[c := col]
      && |now[t].rows| == |db[t].rows|
      && forall k :: 0 <= k < |db[t].rows| ==> now[t].rows[k] == db[t].rows[k] + map[c := col.default]
  {
  }

  lemma RowWithColumn(d: Def, c: string, col: Column, given: Row, v: Cell)
    requires DefOk(d) && c !in d.cols && given.Keys <= d.cols.Keys && RowFits(d, Completed(d, given))
    ensures var d2, r := WithColumn(d, c, col, false), Completed(d, given);
      && Completed(d2, given[c := v]) == r[c := v]
      && (RowFits(d2, r[c := v]) <==> CellFits(v, col))
  {
    var d2, r := WithColumn(d, c, col, false), Completed(d, given);
    assert Completed(d2, given[c := v]) == r[c := v];
    forall k | k in d.checks
      ensures Restrict(r[c := v], k.cols) == Restrict(r, k.cols)
    {
    }
    if CellFits(v, col) {
      assert RowFits(d2, r[c := v]);
    } else {
      assert !CellFits(r[c := v][c], d2.cols[c]);
    }
  }

  lemma StillUnique(d: Def, c: string, col: Column, r: Row, v: Cell, u: set<string>, o: Row)
    requires DefOk(d) && c !in d.cols && u in d.uniques
    requires o in WithColumn(d, c, col, false).rows && forall p <- d.rows :: !Collides(r, p, u)
    ensures !Collides(r[c := v], o, u)
  {
    var rows := WithColumn(d, c, col, false).rows;
    var k :| 0 <= k < |rows| && rows[k] == o;
    var p := d.rows[k];
    assert o == p[c := col.default] && p in d.rows;
    if Collides(r[c := v], o, u) {
      assert Collides(r, p, u);
    }
  }

  lemma StillRefers(db: Db, t: Table, c: string, col: Column, r: Row, v: Cell, fk: ForeignKey)
    requires DbOk(db) && t in db && c !in db[t].cols && r.Keys == db[t].cols.Keys && Refers(db, r, fk)
    ensures Refers(db[t := WithColumn(db[t], c, col, false)], r[c := v], fk)
  {
    var now := db[t := WithColumn(db[t], c, col, false)];
    assert r[c := v][fk.col] == r[fk.col];
    if !r[fk.col].Null? {
      var o :| o in db[fk.table].rows && fk.refCol in o && o[fk.refCol] == r[fk.col];
      if fk.table == t {
        var k :| 0 <= k < |db[t].rows| && db[t].rows[k] == o;
        assert RowFits(db[t], o);
        assert now[t].rows[k] == o[c := col.default] && now[t].rows[k] in now[t].rows;
      } else {
        assert o in now[fk.table].rows;
      }
    }
  }

  /** New clients can use the column: an insert that the old schema accepted is accepted with a value for the
      new column exactly if the value fits. */
  lemma ColumnIsUsable(db: Db, t: Table, c: string, col: Column, i: Insert, v: Cell)
    requires DbOk(db) && Run(db, AddColumn(t, c, col, false)).Some? && Accepts(db, i) && i.table == t
    ensures Accepts(Run(db, AddColumn(t, c, col, false)).value, Insert(t, i.given[c := v])) <==> CellFits(v, col)
  {
    var now := Run(db, AddColumn(t, c, col, false)).value;
    var d, r := db[t], Completed(db[t], i.given);
    RowWithColumn(d, c, col, i.given, v);
    forall u, o | u in d.uniques && o in now[t].rows
      ensures !Collides(r[c := v], o, u)
    {
      StillUnique(d, c, col, r, v, u, o);
    }
    forall fk | fk in d.fks
      ensures Refers(now, r[c := v], fk)
    {
      StillRefers(db, t, c, col, r, v, fk);
    }
  }

  // ---- a relaxed column -----------------------------------------------------------------------

  /** Relaxing a column leaves everything but that one flag as it was, and then a NULL is no obstacle. */
  lemma RelaxingTakesEffect(db: Db, t: Table, c: string, i: Insert)
    requires t in db && c in db[t].cols && i.table == t
    requires db[t].checks == [] && db[t].uniques == {} && db[t].fks == {}
    ensures var run := Run(db, AlterColumn(t, c, Some(true), None, None));
      && run.Some? && run.value == db[t := db[t].(cols := db[t].cols[c := db[t].cols[c].(nullable := true)])]
      && (Accepts(db, i) && c in i.given ==> Accepts(run.value, Insert(t, i.given[c := Null])))
  {
    var now := Run(db, AlterColumn(t, c, Some(true), None, None)).value;
    if Accepts(db, i) && c in i.given {
      PlainInsert(db, i);
      PlainInsert(now, Insert(t, i.given[c := Null]));
    }
  }

  // ---- from the text of a revision -----------------------------------------------------------

  /** op.add_column("t", sa.Column("c", <type>, nullable=True)), which the gate accepts, is carried out by every
      database that has the table without the column; afterwards new clients can write the column, and old ones
      need not know it. */
  lemma NullableColumnIsUsable(env: Env, db: Db, t: string, c: string, typ: Node, i: Insert, v: Cell)
    requires DbOk(db) && Table(None, t) in db && c !in db[Table(None, t)].cols
    requires Accepts(db, i) && i.table == Table(None, t)
    ensures var call := Forms.NullableColumn(t, c, typ);
      && Gate.ClassifyCall(call) == [] && Run(db, Meaning(env, call)).Some?
      && var now := Run(db, Meaning(env, call)).value;
         && Accepts(now, i)
         && (Accepts(now, Insert(i.table, i.given[c := v])) <==> v.Null? || v.typ == env.typeOf(typ))
  {
    var call := Forms.NullableColumn(t, c, typ);
    Forms.NullableColumnIsAccepted(t, c, typ);
    NullableColumnMeans(env, t, c, typ);
    var col := Column(env.typeOf(typ), true, Null);
    AddColumnExactly(db, i.table, c, col, i);
    ColumnIsUsable(db, i.table, c, col, i, v);
  }

  lemma NullableColumnMeans(env: Env, t: string, c: string, typ: Node)
    ensures Meaning(env, Forms.NullableColumn(t, c, typ)) ==
      AddColumn(Table(None, t), c, Column(env.typeOf(typ), true, Null), false)
  {
    var keywords := [Keyword(Some("nullable"), Constant(Bool(true)))];
    assert keywords[1..] == [];
    Forms.OneKeyword("nullable", Constant(Bool(true)));
    Forms.SaName("Column", "sa.Column");
    assert Gate.Unsupported(keywords[1..], {"nullable", "server_default", "unique"}) == multiset{};
  }
}
