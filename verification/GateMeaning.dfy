/** What the calls of an upgrade body do to the database, and what the gate's answer "expand"
    therefore promises to clients written for the old schema. */
module GateMeaning {
  import opened Prelude
  import opened PyAst
  import opened SqlText
  import Gate = MigrationGate
  import Forms = GateGrammar
  import opened SchemaModel

  /** How the parts of a call that are not literal evaluate. */
  datatype Env = Env(
    text: Node -> Option<string>, flag: Node -> bool, typeOf: Node -> nat, default: Node -> Cell,
    newTable: Node -> (Table, Def), sql: string -> (Db -> Option<Db>), other: Node -> (Db -> Option<Db>))

  function TextOf(env: Env, n: Node): Option<string> {
    if Gate.LiteralString(n).Some? then Gate.LiteralString(n) else env.text(n)
  }

  function FlagOf(env: Env, n: Node): bool {
    if Gate.LiteralBool(n).Some? then Gate.LiteralBool(n).value else env.flag(n)
  }

  function SchemaOf(env: Env, keywords: seq<Node>): Option<string> {
    var k := Gate.KeywordValue(keywords, "schema");
    if k.Some? then TextOf(env, k.value) else None
  }

  function TableNamed(env: Env, name: Node, keywords: seq<Node>): Table {
    Table(SchemaOf(env, keywords), TextOf(env, name).GetOr(""))
  }

  /** What a call does to the database. Building a column type or another part of a definition does
      nothing; an operation does what Alembic issues for it; whatever is not spelled out here, any other
      helper included, may do anything. */
  function Meaning(env: Env, call: Node): Op
    requires call.Call?
  {
    if Gate.OpCallName(call).Some? then OpMeaning(env, call)
    else if Forms.IsConstructor(call) && !(call.func.Attribute? && call.func.attr == "execute") then
      Op.Other(db => Some(db))
    else Op.Other(env.other(call))
  }

  function OpMeaning(env: Env, call: Node): Op
    requires Gate.OpCallName(call).Some?
  {
    var name, args, keywords := Gate.OpCallName(call).value, call.args, call.keywords;
    if name == "create_table" then
      CreateTable(env.newTable(call).0, env.newTable(call).1)
    else if name == "drop_table" && |args| == 1 then
      DropTable(TableNamed(env, args[0], keywords))
    else if name == "drop_column" && |args| == 2 then
      DropColumn(TableNamed(env, args[0], keywords), TextOf(env, args[1]).GetOr(""))
    else if name == "alter_column" && |args| == 2 && AlterKeywordsKnown(keywords) then
      AlterMeaning(env, args, keywords)
    else if name == "add_column" && |args| == 2 && args[1].Call? && |args[1].args| == 2
            && Gate.QualifiedName(args[1].func) == Some("sa.Column") && ColumnKeywordsKnown(args[1].keywords) then
      AddColumnMeaning(env, args[0], args[1], keywords)
    else if name == "create_index" && |args| == 3 && IsPlainIndex(env, keywords) then
      PlainIndex(TableNamed(env, args[1], keywords))
    else if name == "execute" && args != [] && Gate.LiteralSql(args[0]).Some? then
      Op.Other(env.sql(Gate.LiteralSql(args[0]).value))
    else
      Op.Other(env.other(call))
  }

  predicate AlterKeywordsKnown(keywords: seq<Node>) {
    Gate.Unsupported(keywords, {"existing_nullable", "existing_server_default", "existing_type", "nullable", "schema",
                                "server_default", "type_"}) == multiset{}
  }

  predicate ColumnKeywordsKnown(keywords: seq<Node>) {
    Gate.Unsupported(keywords, {"nullable", "server_default", "unique"}) == multiset{}
  }

  predicate IsPlainIndex(env: Env, keywords: seq<Node>) {
    var unique := Gate.KeywordValue(keywords, "unique");
    unique.None? || !FlagOf(env, unique.value)
  }

  function AlterMeaning(env: Env, args: seq<Node>, keywords: seq<Node>): Op
    requires |args| == 2
  {
    var nullable, default, typ := Gate.KeywordValue(keywords, "nullable"),
                                  Gate.KeywordValue(keywords, "server_default"), Gate.KeywordValue(keywords, "type_");
    AlterColumn(TableNamed(env, args[0], keywords), TextOf(env, args[1]).GetOr(""),
                if nullable.Some? then Some(FlagOf(env, nullable.value)) else None,
                if default.Some? then Some(env.default(default.value)) else None,
                if typ.Some? then Some(env.typeOf(typ.value)) else None)
  }

  function AddColumnMeaning(env: Env, table: Node, column: Node, keywords: seq<Node>): Op
    requires column.Call? && |column.args| == 2
  {
    var nullable, default, unique := Gate.KeywordValue(column.keywords, "nullable"),
                                     Gate.KeywordValue(column.keywords, "server_default"),
                                     Gate.KeywordValue(column.keywords, "unique");
    AddColumn(TableNamed(env, table, keywords), TextOf(env, column.args[0]).GetOr(""),
              Column(env.typeOf(column.args[1]),
                     nullable.None? || FlagOf(env, nullable.value),
                     if default.Some? then env.default(default.value) else Null),
              unique.Some? && FlagOf(env, unique.value))
  }

  // ---- Assumptions about evaluation ---------------------------------------------------------------

  /** SET and COMMENT leave tables alone, created tables are well formed, and the constants,
      now(), true() and false() are not NULL. */
  ghost predicate Faithful(env: Env) {
    && (forall sql, db :: IsSetOrComment(sql) ==> env.sql(sql)(db) == Some(db))
    && (forall n :: DefOk(env.newTable(n).1))
    && (forall n :: Forms.IsStaticDefault(n) && !Forms.IsTextDefault(n) ==> !env.default(n).Null?)
  }

  /** The one thing the gate cannot see: the value of a default given as SQL text. */
  ghost predicate TextDefaultsNotNull(env: Env) {
    forall n :: Forms.IsTextDefault(n) ==> !env.default(n).Null?
  }

  // ---- Accepted calls are harmless --------------------------------------------------------------------

  lemma {:induction false} UnsupportedKnown(keywords: seq<Node>, few: set<string>, many: set<string>)
    requires few <= many && Gate.Unsupported(keywords, few) == multiset{}
    ensures Gate.Unsupported(keywords, many) == multiset{}
    ensures forall name :: name !in few ==> Gate.KeywordValue(keywords, name).None?
  {
    if keywords != [] {
      assert Gate.ArgName(keywords[0]) !in Gate.Unsupported(keywords, few);
      assert Gate.Unsupported(keywords[1..], few) == multiset{};
      UnsupportedKnown(keywords[1..], few, many);
    }
  }

  lemma AlterAccepted(env: Env, call: Node)
    requires call.Call? && Gate.OpCallName(call) == Some("alter_column") && Gate.ClassifyCall(call) == []
    ensures Harmless(Meaning(env, call))
  {
    UnsupportedKnown(call.keywords,
                     {"existing_nullable", "existing_server_default", "existing_type", "nullable", "schema"},
                     {"existing_nullable", "existing_server_default", "existing_type", "nullable", "schema",
                      "server_default", "type_"});
  }

  lemma AddColumnAccepted(env: Env, call: Node)
    requires call.Call? && Gate.OpCallName(call) == Some("add_column") && Gate.ClassifyCall(call) == []
    requires Faithful(env) && TextDefaultsNotNull(env)
    ensures Harmless(Meaning(env, call))
  {
    var keywords := call.args[1].keywords;
    UnsupportedKnown(keywords, {"nullable", "server_default"}, {"nullable", "server_default", "unique"});
    var default := Gate.KeywordValue(keywords, "server_default");
    if default.Some? {
      Forms.StaticDefaultIs(default.value);
    }
  }

  lemma ExecuteAccepted(env: Env, call: Node)
    requires call.Call? && Gate.OpCallName(call) == Some("execute") && Gate.ClassifyCall(call) == []
    requires Faithful(env)
    ensures Harmless(Meaning(env, call))
  {
    AllowlistedMeans(Gate.LiteralSql(call.args[0]).value);
  }

  /** Every accepted call, operation or not, means a harmless schema operation. */
  lemma AcceptedIsHarmless(env: Env, call: Node)
    requires call.Call? && Gate.ClassifyCall(call) == []
    requires Faithful(env) && TextDefaultsNotNull(env)
    ensures Harmless(Meaning(env, call))
  {
    if Gate.OpCallName(call).None? {
      Forms.ConstructorIs(call);
    } else {
      var name := Gate.OpCallName(call).value;
      if name == "alter_column" {
        AlterAccepted(env, call);
      } else if name == "add_column" {
        AddColumnAccepted(env, call);
      } else if name == "execute" {
        ExecuteAccepted(env, call);
      }
    }
  }

  // ---- The promise of "expand" --------------------------------------------------------------------------

  function Meanings(env: Env, calls: seq<Node>): seq<Op>
    requires forall c <- calls :: c.Call?
  {
    seq(|calls|, i requires 0 <= i < |calls| => Meaning(env, calls[i]))
  }

  /** `calls` is any list of calls, of whatever kind, taken from the bodies of the files' upgrade(). */
  ghost predicate DrawnFromUpgrades(files: seq<Gate.File>, calls: seq<Node>) {
    forall c <- calls :: c.Call? && exists f <- files :: InUpgrade(f, c)
  }

  ghost predicate InUpgrade(file: Gate.File, call: Node) {
    && file.Module? && Gate.FindFunction(file.body, "upgrade").Some?
    && call in Nodes(Gate.FindFunction(file.body, "upgrade").value)
  }

  /** The gate calls the file "expand" and has nothing against it. */
  ghost predicate IsExpand(file: Gate.File) {
    exists c :: Gate.IsClassificationOf(file, c) && c.AutoAllowed()
  }

  lemma AllowedIsExpand(files: seq<Gate.File>, cs: seq<Gate.Classification>)
    requires Gate.AreClassificationsOf(files, cs) && forall c <- cs :: c.AutoAllowed()
    ensures forall f <- files :: IsExpand(f)
  {
    forall f | f in files
      ensures IsExpand(f)
    {
      var i :| 0 <= i < |files| && files[i] == f;
      assert Gate.IsClassificationOf(files[i], cs[i]) && cs[i] in cs;
    }
  }

  lemma DrawnIsHarmless(env: Env, files: seq<Gate.File>, call: Node)
    requires forall f <- files :: IsExpand(f)
    requires call.Call? && exists f <- files :: InUpgrade(f, call)
    requires Faithful(env) && TextDefaultsNotNull(env)
    ensures Harmless(Meaning(env, call))
  {
    var i :| 0 <= i < |files| && InUpgrade(files[i], call);
    assert IsExpand(files[i]);
    AcceptedIsHarmless(env, call);
  }

  lemma RangeIsHarmless(env: Env, files: seq<Gate.File>, calls: seq<Node>)
    requires forall f <- files :: IsExpand(f)
    requires DrawnFromUpgrades(files, calls) && Faithful(env) && TextDefaultsNotNull(env)
    ensures forall op <- Meanings(env, calls) :: Harmless(op)
  {
    var ops := Meanings(env, calls);
    forall op | op in ops
      ensures Harmless(op)
    {
      var k :| 0 <= k < |ops| && ops[k] == op;
      DrawnIsHarmless(env, files, calls[k]);
    }
  }

  /** Whatever the code around them does, in whatever order and however often it makes them, the calls
      in a range of expand revisions keep every table, column, value and valid row, and every insert
      that the old schema accepted is accepted afterwards. */
  lemma ExpandKeepsOldClients(env: Env, files: seq<Gate.File>, calls: seq<Node>, db: Db)
    requires forall f <- files :: IsExpand(f)
    requires DrawnFromUpgrades(files, calls)
    requires Faithful(env) && TextDefaultsNotNull(env)
    requires DbOk(db)
    ensures var now := RunAll(db, Meanings(env, calls)); now.Some? ==> KeepsOldClients(db, now.value)
  {
    var ops := Meanings(env, calls);
    RangeIsHarmless(env, files, calls);
    if RunAll(db, ops).Some? {
      HarmlessRunExtends(db, ops);
      OldInsertsGoIn(db, RunAll(db, ops).value);
    }
  }

  /** Tables, columns, values and valid rows are still there, and old inserts still go in. */
  ghost predicate KeepsOldClients(db: Db, now: Db) {
    Extends(db, now) && DbOk(now) && forall i :: Accepts(db, i) ==> Accepts(now, i)
  }

  lemma OldInsertsGoIn(db: Db, now: Db)
    requires DbOk(db) && DbOk(now) && Extends(db, now)
    ensures forall i :: Accepts(db, i) ==> Accepts(now, i)
  {
    forall i | Accepts(db, i)
      ensures Accepts(now, i)
    {
      ExtensionAcceptsOldInserts(db, now, i);
    }
  }

  /** For a single accepted add_column the promise holds exactly when the column is nullable or
      its default is not NULL. The gate checks only that a default is written down. */
  lemma AcceptedAddColumnExactly(env: Env, call: Node, db: Db, i: Insert)
    requires call.Call? && Gate.OpCallName(call) == Some("add_column") && Gate.ClassifyCall(call) == []
    requires DbOk(db) && Run(db, Meaning(env, call)).Some?
    requires Accepts(db, i) && Meaning(env, call).AddColumn? && i.table == Meaning(env, call).table
    ensures Accepts(Run(db, Meaning(env, call)).value, i) <==>
      Meaning(env, call).col.nullable || !Meaning(env, call).col.default.Null?
  {
    AcceptedIsNotUnique(env, call);
    var op := Meaning(env, call);
    AddColumnExactly(db, op.table, op.name, op.col, i);
    FillableMeans(db, op.table, op.name, op.col);
  }

  lemma AcceptedIsNotUnique(env: Env, call: Node)
    requires call.Call? && Gate.OpCallName(call) == Some("add_column") && Gate.ClassifyCall(call) == []
    ensures Meaning(env, call).AddColumn? ==> !Meaning(env, call).unique
  {
    UnsupportedKnown(call.args[1].keywords, {"nullable", "server_default"}, {"nullable", "server_default", "unique"});
  }

  /** The server has checked the type of the default. */
  lemma FillableMeans(db: Db, t: Table, c: string, col: Column)
    requires Run(db, AddColumn(t, c, col, false)).Some?
    ensures Fillable(col) <==> col.nullable || !col.default.Null?
  {
  }

  function SaCall(name: string, args: seq<Node>, keywords: seq<Node>): Node {
    Call(Attribute(Name("sa"), name), args, keywords)
  }

  /** op.add_column("t", sa.Column("c", sa.Integer(), nullable=False, server_default=sa.text("NULL"))) */
  function NullDefaultCall(): Node {
    Call(Attribute(Name("op"), "add_column"),
         [Constant(Str("t")),
          SaCall("Column", [Constant(Str("c")), SaCall("Integer", [], [])],
                 [Keyword(Some("nullable"), Constant(Bool(false))),
                  Keyword(Some("server_default"), SaCall("text", [Constant(Str("NULL"))], []))])],
         [])
  }

  /** The gate lets this call through, and it breaks every insert into the table. */
  lemma NullDefaultSlipsThrough(env: Env, db: Db, i: Insert)
    requires env.default(SaCall("text", [Constant(Str("NULL"))], [])).Null?
    requires DbOk(db) && Accepts(db, i) && i.table == Table(None, "t") && "c" !in db[i.table].cols
    requires db[i.table].rows == []
    ensures Gate.ClassifyCall(NullDefaultCall()) == []
    ensures Gate.OpCallName(NullDefaultCall()) == Some("add_column")
    ensures Run(db, Meaning(env, NullDefaultCall())).Some?
    ensures !Accepts(Run(db, Meaning(env, NullDefaultCall())).value, i)
  {
    var call := NullDefaultCall();
    NullDefaultAccepted();
    AcceptedAddColumnExactly(env, call, db, i);
  }

  lemma NullDefaultAccepted()
    ensures Gate.ClassifyCall(NullDefaultCall()) == []
    ensures var keywords := NullDefaultCall().args[1].keywords;
            && Gate.QualifiedName(NullDefaultCall().args[1].func) == Some("sa.Column")
            && Gate.Unsupported(keywords, {"nullable", "server_default", "unique"}) == multiset{}
            && Gate.KeywordValue(keywords, "nullable") == Some(Constant(Bool(false)))
            && Gate.KeywordValue(keywords, "server_default") == Some(SaCall("text", [Constant(Str("NULL"))], []))
  {
    var call := NullDefaultCall();
    var column := call.args[1];
    var keywords := column.keywords;
    assert keywords[1..] == [keywords[1]] && keywords[1..][1..] == [];
    assert "sa" + "." + "Column" == "sa.Column" && "sa" + "." + "text" == "sa.text";
    assert Gate.QualifiedName(Name("sa")) == Some("sa");
    assert Gate.QualifiedName(column.func) == Some("sa.Column");
    assert Gate.QualifiedName(keywords[1].val.func) == Some("sa.text");
    assert Gate.KeywordValue(keywords, "server_default") == Some(keywords[1].val);
    assert Gate.Unsupported(keywords[1..], {"nullable", "server_default"}) == multiset{};
    assert Gate.ClassifyColumnOptions(keywords) == [];
    assert Gate.LiteralString(call.args[0]) == Some("t") && Gate.LiteralString(column.args[0]) == Some("c");
    assert Gate.ClassifyAddColumn(call.args, []) == [];
    assert "drop_"[0] != "add_column"[0];
    assert Gate.ClassifyOpCall("add_column", call.args, []) == [];
    UnsupportedKnown(keywords, {"nullable", "server_default"}, {"nullable", "server_default", "unique"});
  }
}
