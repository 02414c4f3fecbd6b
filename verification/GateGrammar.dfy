/** The calls that the gate lets through, written down as forms, and what each of its reasons says. */
module GateGrammar {
  import opened Prelude
  import opened PyAst
  import opened SqlText
  import Gate = MigrationGate

  // ---- Literals and keywords -----------------------------------------------------------------------

  predicate IsText(n: Node) { n.Constant? && n.value.Str? }

  predicate IsOpCall(n: Node, name: string) {
    n.Call? && n.func == Attribute(Name("op"), name)
  }

  /** The value the call gives to a keyword: the first, should there be several. */
  ghost predicate Gives(keywords: seq<Node>, name: string, v: Node) {
    exists i | 0 <= i < |keywords| ::
      && keywords[i] == Keyword(Some(name), v)
      && (forall j :: 0 <= j < i ==> !(keywords[j].Keyword? && keywords[j].arg == Some(name)))
  }

  ghost predicate Silent(keywords: seq<Node>, name: string) {
    forall k <- keywords :: !(k.Keyword? && k.arg == Some(name))
  }

  /** Every keyword is one of these; in particular there is no `**kwargs`. */
  predicate OnlyKeywords(keywords: seq<Node>, names: set<string>) {
    forall k <- keywords :: k.Keyword? && k.arg.Some? && k.arg.value in names
  }

  /** SQL text, or text wrapped in calls of `text` or `....text`. */
  predicate Wraps(n: Node, sql: string) {
    match n
    case Constant(v) => v == Str(sql)
    case Call(func, args, _) =>
      args != [] && ((func.Attribute? && func.attr == "text") || func == Name("text")) && Wraps(args[0], sql)
    case _ => false
  }

  // ---- The forms -------------------------------------------------------------------------------------

  /** A column type or another part of a definition. */
  predicate IsConstructor(n: Node) {
    n.Call? &&
    if n.func.Name? then n.func.id in {"HALFVEC", "JSONB", "PgUUID"}
    else
      Gate.QualifiedName(n.func) in {
        Some("sa.BigInteger"), Some("sa.Boolean"), Some("sa.CheckConstraint"), Some("sa.Column"), Some("sa.Date"),
        Some("sa.DateTime"), Some("sa.Enum"), Some("sa.Float"), Some("sa.ForeignKey"),
        Some("sa.ForeignKeyConstraint"), Some("sa.Identity"), Some("sa.Index"), Some("sa.Integer"), Some("sa.JSON"),
        Some("sa.LargeBinary"), Some("sa.Numeric"), Some("sa.PrimaryKeyConstraint"), Some("sa.SmallInteger"),
        Some("sa.String"), Some("sa.Text"), Some("sa.Time"), Some("sa.UniqueConstraint"), Some("sa.Uuid"),
        Some("sa.false"), Some("sa.func.now"), Some("sa.text"), Some("sa.true")}
  }

  /** A constant other than None, now(), true(), false(), or a literal SQL text. */
  predicate IsStaticDefault(n: Node) {
    || (n.Constant? && (n.value.Str? || n.value.Bool? || n.value.Number?))
    || (n.Call? && n.args == [] && n.keywords == []
        && Gate.QualifiedName(n.func) in {Some("sa.false"), Some("sa.true"), Some("sa.func.now")})
    || IsTextDefault(n)
  }

  predicate IsTextDefault(n: Node) {
    n.Call? && |n.args| == 1 && IsText(n.args[0]) && n.keywords == [] && Gate.QualifiedName(n.func) == Some("sa.text")
  }

  ghost predicate Relaxes(c: Node) {
    && IsOpCall(c, "alter_column") && |c.args| == 2 && IsText(c.args[0]) && IsText(c.args[1])
    && OnlyKeywords(c.keywords,
                    {"nullable", "existing_nullable", "existing_type", "existing_server_default", "schema"})
    && Gives(c.keywords, "nullable", Constant(Bool(true)))
  }

  ghost predicate IndexesConcurrently(c: Node) {
    && IsOpCall(c, "create_index") && |c.args| == 3 && IsText(c.args[0]) && IsText(c.args[1])
    && (c.args[2].ListOf? || c.args[2].TupleOf?) && c.args[2].elts != [] && (forall e <- c.args[2].elts :: IsText(e))
    && OnlyKeywords(c.keywords, {"postgresql_concurrently", "schema", "unique"})
    && Gives(c.keywords, "postgresql_concurrently", Constant(Bool(true)))
    && (Silent(c.keywords, "unique") || Gives(c.keywords, "unique", Constant(Bool(false))))
    && (Silent(c.keywords, "schema") || exists v :: IsText(v) && Gives(c.keywords, "schema", v))
  }

  /** `sa.Column("name", type)`, nullable or with a static default. */
  ghost predicate IsPlainColumn(n: Node) {
    && n.Call? && Gate.QualifiedName(n.func) == Some("sa.Column") && |n.args| == 2 && IsText(n.args[0])
    && OnlyKeywords(n.keywords, {"nullable", "server_default"})
    && (Silent(n.keywords, "server_default")
        || exists v :: IsStaticDefault(v) && Gives(n.keywords, "server_default", v))
    && (Silent(n.keywords, "nullable") || Gives(n.keywords, "nullable", Constant(Bool(true)))
        || (Gives(n.keywords, "nullable", Constant(Bool(false))) && !Silent(n.keywords, "server_default")))
  }

  ghost predicate AddsPlainColumn(c: Node) {
    IsOpCall(c, "add_column") && |c.args| == 2 && IsText(c.args[0]) && c.keywords == [] && IsPlainColumn(c.args[1])
  }

  ghost predicate SetsOrComments(c: Node) {
    IsOpCall(c, "execute") && c.args != [] && exists sql :: Wraps(c.args[0], sql) && IsSetOrComment(sql)
  }

  ghost predicate IsAcceptedForm(c: Node) {
    || IsOpCall(c, "create_table") || Relaxes(c) || IndexesConcurrently(c) || AddsPlainColumn(c) || SetsOrComments(c)
    || (IsConstructor(c) && Gate.OpCallName(c).None? && !(c.func.Attribute? && c.func.attr == "execute"))
  }

  // ---- What reading a keyword or a text comes to ------------------------------------------------------

  lemma {:induction false} KeywordIs(keywords: seq<Node>, name: string)
    ensures Gate.KeywordValue(keywords, name).None? <==> Silent(keywords, name)
    ensures forall v :: Gate.KeywordValue(keywords, name) == Some(v) <==> Gives(keywords, name, v)
  {
    if keywords != [] {
      var rest := keywords[1..];
      KeywordIs(rest, name);
      forall v
        ensures Gate.KeywordValue(keywords, name) == Some(v) <==> Gives(keywords, name, v)
      {
        GivesFirst(keywords, name, v);
      }
      assert forall k <- keywords :: k == keywords[0] || k in rest;
    }
  }

  lemma GivesFirst(keywords: seq<Node>, name: string, v: Node)
    requires keywords != []
    ensures Gives(keywords, name, v) <==>
            if keywords[0].Keyword? && keywords[0].arg == Some(name) then keywords[0].val == v
            else Gives(keywords[1..], name, v)
  {
    var rest := keywords[1..];
    if keywords[0].Keyword? && keywords[0].arg == Some(name) {
      if keywords[0].val == v {
        assert keywords[0] == Keyword(Some(name), v);
      }
    } else {
      if Gives(keywords, name, v) {
        var i :| 0 <= i < |keywords| && keywords[i] == Keyword(Some(name), v)
                 && (forall j :: 0 <= j < i ==> !(keywords[j].Keyword? && keywords[j].arg == Some(name)));
        assert rest[i - 1] == keywords[i];
        assert forall j :: 0 <= j < i - 1 ==> rest[j] == keywords[j + 1];
      }
      if Gives(rest, name, v) {
        var i :| 0 <= i < |rest| && rest[i] == Keyword(Some(name), v)
                 && (forall j :: 0 <= j < i ==> !(rest[j].Keyword? && rest[j].arg == Some(name)));
        assert keywords[i + 1] == rest[i];
        assert forall j :: 0 < j < i + 1 ==> keywords[j] == rest[j - 1];
      }
    }
  }

  lemma {:induction false} NothingUnsupported(keywords: seq<Node>, names: set<string>)
    ensures Gate.Unsupported(keywords, names) == multiset{} <==> OnlyKeywords(keywords, names)
  {
    if keywords != [] {
      var rest := keywords[1..];
      NothingUnsupported(rest, names);
      assert OnlyKeywords(keywords, names) <==> OnlyKeywords([keywords[0]], names) && OnlyKeywords(rest, names) by {
        assert keywords == [keywords[0]] + rest;
      }
      if !OnlyKeywords([keywords[0]], names) {
        assert Gate.ArgName(keywords[0]) in Gate.Unsupported(keywords, names);
      }
    }
  }

  lemma {:induction false} LiteralSqlIs(n: Node, sql: string)
    ensures Gate.LiteralSql(n) == Some(sql) <==> Wraps(n, sql)
    decreases n
  {
    if n.Call? && n.args != [] {
      LiteralSqlIs(n.args[0], sql);
    }
  }

  lemma StaticDefaultIs(n: Node)
    ensures Gate.IsStaticServerDefault(n) <==> IsStaticDefault(n)
  {
  }

  // ---- The gate lets through exactly these forms ---------------------------------------------------------

  lemma AlterIs(c: Node)
    requires IsOpCall(c, "alter_column")
    ensures Gate.ClassifyAlterColumn(c.args, c.keywords) == [] <==> Relaxes(c)
  {
    NothingUnsupported(c.keywords,
                       {"existing_nullable", "existing_server_default", "existing_type", "nullable", "schema"});
    KeywordIs(c.keywords, "nullable");
  }

  lemma SaysBool(keywords: seq<Node>, name: string, b: bool)
    ensures Gives(keywords, name, Constant(Bool(b))) <==>
            var v := Gate.KeywordValue(keywords, name); v.Some? && Gate.LiteralBool(v.value) == Some(b)
  {
    KeywordIs(keywords, name);
  }

  lemma SaysText(keywords: seq<Node>, name: string)
    ensures (Silent(keywords, name) || exists v :: IsText(v) && Gives(keywords, name, v)) <==>
            var v := Gate.KeywordValue(keywords, name); v.None? || Gate.LiteralString(v.value).Some?
  {
    KeywordIs(keywords, name);
  }

  lemma IsSilent(keywords: seq<Node>, name: string)
    ensures Silent(keywords, name) <==> Gate.KeywordValue(keywords, name).None?
  {
    KeywordIs(keywords, name);
  }

  lemma TextsOf(ns: seq<Node>)
    ensures Gate.AllLiteral(ns) <==> forall e <- ns :: IsText(e)
    ensures |ns| >= 2 ==> (Gate.AllLiteral(ns[..2]) <==> IsText(ns[0]) && IsText(ns[1]))
  {
    assert forall e :: Gate.LiteralString(e).Some? <==> IsText(e);
    if |ns| >= 2 {
      var two := ns[..2];
      assert two == [ns[0], ns[1]];
      assert two[0] in two && two[1] in two && forall e <- two :: e == two[0] || e == two[1];
    }
  }

  lemma IndexIs(c: Node)
    requires IsOpCall(c, "create_index")
    ensures Gate.ClassifyCreateIndex(c.args, c.keywords) == [] <==> IndexesConcurrently(c)
  {
    NothingUnsupported(c.keywords, {"postgresql_concurrently", "schema", "unique"});
    SaysBool(c.keywords, "unique", false);
    IsSilent(c.keywords, "unique");
    SaysText(c.keywords, "schema");
    SaysBool(c.keywords, "postgresql_concurrently", true);
    TextsOf(c.args);
    if |c.args| == 3 && (c.args[2].ListOf? || c.args[2].TupleOf?) {
      TextsOf(c.args[2].elts);
    }
  }

  lemma ColumnIs(c: Node)
    requires IsOpCall(c, "add_column")
    ensures Gate.ClassifyAddColumn(c.args, c.keywords) == [] <==> AddsPlainColumn(c)
  {
    if |c.args| == 2 && c.args[1].Call? {
      var keywords := c.args[1].keywords;
      NothingUnsupported(keywords, {"nullable", "server_default"});
      KeywordIs(keywords, "nullable");
      KeywordIs(keywords, "server_default");
      forall v
        ensures Gate.IsStaticServerDefault(v) <==> IsStaticDefault(v)
      {
        StaticDefaultIs(v);
      }
    }
  }

  lemma ExecuteIs(c: Node)
    requires IsOpCall(c, "execute")
    ensures Gate.ClassifyExecute(c.args) == [] <==> SetsOrComments(c)
  {
    if c.args != [] {
      forall sql
        ensures Gate.LiteralSql(c.args[0]) == Some(sql) <==> Wraps(c.args[0], sql)
        ensures IsAllowlistedSql(sql) <==> IsSetOrComment(sql)
      {
        LiteralSqlIs(c.args[0], sql);
        AllowlistedMeans(sql);
      }
    }
  }

  lemma ConstructorIs(c: Node)
    requires c.Call? && Gate.OpCallName(c).None?
    ensures Gate.ClassifyCall(c) == [] <==> IsConstructor(c) && !(c.func.Attribute? && c.func.attr == "execute")
  {
  }

  lemma OpNames()
    ensures !("drop_" <= "alter_column") && !("drop_" <= "create_index") && !("drop_" <= "add_column")
    ensures !("drop_" <= "execute") && !("drop_" <= "create_table")
  {
    assert "drop_"[0] == 'd';
    assert "alter_column"[0] == 'a' && "create_index"[0] == 'c' && "add_column"[0] == 'a';
    assert "execute"[0] == 'e' && "create_table"[0] == 'c';
  }

  lemma OpCallIs(c: Node)
    requires c.Call? && Gate.OpCallName(c).Some?
    ensures Gate.ClassifyCall(c) == [] <==> IsAcceptedForm(c)
  {
    OpNames();
    var name := Gate.OpCallName(c).value;
    assert IsOpCall(c, name);
    if name == "alter_column" {
      AlterIs(c);
    } else if name == "create_index" {
      IndexIs(c);
    } else if name == "add_column" {
      ColumnIs(c);
    } else if name == "execute" {
      ExecuteIs(c);
    }
  }

  /** A call carries no reason exactly if it has one of the forms. */
  lemma AcceptedExactly(c: Node)
    requires c.Call?
    ensures Gate.ClassifyCall(c) == [] <==> IsAcceptedForm(c)
  {
    if Gate.OpCallName(c).Some? {
      OpCallIs(c);
    } else {
      ConstructorIs(c);
    }
  }

  /** A file is auto-allowed exactly if it declares "expand", has an upgrade(), and every call in it, at any
      depth, has one of the forms. */
  lemma AutoAllowedExactly(file: Gate.File, c: Gate.Classification)
    requires Gate.IsClassificationOf(file, c)
    ensures c.AutoAllowed() <==>
      && file.Module? && Gate.ReadDeclaredKind(file.body).0 == Some("expand")
      && Gate.FindFunction(file.body, "upgrade").Some?
      && forall n :: n in Nodes(Gate.FindFunction(file.body, "upgrade").value) && n.Call? ==> IsAcceptedForm(n)
  {
    forall n: Node | n.Call?
      ensures Gate.ClassifyCall(n) == [] <==> IsAcceptedForm(n)
    {
      AcceptedExactly(n);
    }
    if file.Module? && Gate.FindFunction(file.body, "upgrade").Some? {
      Gate.BodyReasonsMeans(Gate.FindFunction(file.body, "upgrade").value);
    }
  }

  /** In an auto-allowed file every call at any depth is one of five operations or builds a part of a
      definition; nothing else is called, and nothing is executed on a connection. */
  lemma AutoAllowedCalls(file: Gate.File, c: Gate.Classification, n: Node)
    requires Gate.IsClassificationOf(file, c) && c.AutoAllowed() && file.Module?
    requires Gate.FindFunction(file.body, "upgrade").Some?
    requires n in Nodes(Gate.FindFunction(file.body, "upgrade").value) && n.Call?
    ensures || IsOpCall(n, "create_table") || IsOpCall(n, "alter_column") || IsOpCall(n, "create_index")
            || IsOpCall(n, "add_column") || IsOpCall(n, "execute") || IsConstructor(n)
    ensures n.func.Attribute? && n.func.attr == "execute" ==> n.func.base == Name("op")
  {
    AutoAllowedExactly(file, c);
  }

  /** A helper call anywhere makes an expand file mislabelled. */
  lemma HelperIsRefused(file: Gate.File, c: Gate.Classification, n: Node)
    requires Gate.IsClassificationOf(file, c) && file.Module? && Gate.ReadDeclaredKind(file.body).0 == Some("expand")
    requires Gate.FindFunction(file.body, "upgrade").Some?
    requires n in Nodes(Gate.FindFunction(file.body, "upgrade").value)
    requires n.Call? && n.func.Name? && n.func.id !in {"HALFVEC", "JSONB", "PgUUID"}
    ensures c.mislabelled && !c.AutoAllowed() && Gate.UnknownHelper in c.reasons
  {
    assert Gate.UnknownHelper in Gate.ClassifyCall(n);
    assert Gate.HasReason(Gate.FindFunction(file.body, "upgrade").value, Gate.UnknownHelper);
    Gate.BodyReasonsMeans(Gate.FindFunction(file.body, "upgrade").value);
  }

  // ---- Declaration and upgrade() -----------------------------------------------------------------------

  /** A module-level statement that gives MIGRATION_KIND a value, or None for a bare annotation. */
  ghost predicate Declares(n: Node, value: Option<Node>) {
    || (n.Assign? && Name("MIGRATION_KIND") in n.targets && value == Some(n.val))
    || (n.AnnAssign? && n.target == Name("MIGRATION_KIND") && value == n.init)
  }

  lemma DeclaresIs(n: Node)
    ensures Gate.DeclaresKind(n) <==> exists v :: Declares(n, v)
  {
    if n.Assign? && Gate.DeclaresKind(n) {
      assert Declares(n, Some(n.val));
    } else if n.AnnAssign? && Gate.DeclaresKind(n) {
      assert Declares(n, n.init);
    }
  }

  /** The first declaration decides: a literal text is the declared kind, and anything else is a reason. */
  lemma {:induction false} FirstDeclarationDecides(body: seq<Node>, i: nat, value: Option<Node>)
    requires i < |body| && Declares(body[i], value) && forall j, v | 0 <= j < i :: !Declares(body[j], v)
    ensures Gate.ReadDeclaredKind(body) ==
            if value.None? || !IsText(value.value) then (None, Some(Gate.KindNotLiteral))
            else (Some(value.value.value.s),
                  if value.value.value.s in {"expand", "contract"} then None else Some(Gate.KindInvalid))
  {
    DeclaresIs(body[0]);
    if i > 0 {
      assert !Declares(body[0], None) && forall v :: !Declares(body[0], v);
      assert forall j, v | 0 <= j < i - 1 :: Declares(body[1..][j], v) ==> Declares(body[j + 1], v);
      FirstDeclarationDecides(body[1..], i - 1, value);
    }
  }

  lemma {:induction false} NoDeclaration(body: seq<Node>)
    requires forall n <- body, v :: !Declares(n, v)
    ensures Gate.ReadDeclaredKind(body) == (None, Some(Gate.KindMissing))
  {
    if body != [] {
      DeclaresIs(body[0]);
      assert body[0] in body;
      assert forall n <- body[1..] :: n in body;
      NoDeclaration(body[1..]);
    }
  }

  /** upgrade() is the first module-level function of that name. */
  lemma {:induction false} FirstFunctionIsFound(body: seq<Node>, name: string, i: nat)
    requires i < |body| && body[i].Function? && body[i].name == name
    requires forall j | 0 <= j < i :: !(body[j].Function? && body[j].name == name)
    ensures Gate.FindFunction(body, name) == Some(body[i])
  {
    if i > 0 {
      assert forall j | 0 <= j < i - 1 :: body[1..][j] == body[j + 1];
      FirstFunctionIsFound(body[1..], name, i - 1);
    }
  }

  // ---- The plain forms are accepted ------------------------------------------------------------------

  function Sa(name: string): Node { Attribute(Name("sa"), name) }

  function Op(name: string, args: seq<Node>, keywords: seq<Node>): Node {
    Call(Attribute(Name("op"), name), args, keywords)
  }

  lemma OneKeyword(name: string, v: Node)
    ensures Gives([Keyword(Some(name), v)], name, v)
    ensures forall other: string :: other != name ==> Silent([Keyword(Some(name), v)], other)
  {
    assert [Keyword(Some(name), v)][0] == Keyword(Some(name), v);
  }

  function NullableColumn(t: string, c: string, typ: Node): (call: Node)
    ensures call.Call? && |call.args| == 2 && call.args[1].Call?
  {
    Op("add_column",
       [Constant(Str(t)),
        Call(Sa("Column"), [Constant(Str(c)), typ], [Keyword(Some("nullable"), Constant(Bool(true)))])],
       [])
  }

  /** `op.add_column("t", sa.Column("c", type))` and the same with `nullable=True`. */
  lemma NullableColumnIsAccepted(t: string, c: string, typ: Node)
    ensures var plain := Call(Sa("Column"), [Constant(Str(c)), typ], []);
            Gate.ClassifyCall(Op("add_column", [Constant(Str(t)), plain], [])) == []
    ensures Gate.ClassifyCall(NullableColumn(t, c, typ)) == []
  {
    var plain := Call(Sa("Column"), [Constant(Str(c)), typ], []);
    var said := NullableColumn(t, c, typ).args[1];
    SaName("Column", "sa.Column");
    OneKeyword("nullable", Constant(Bool(true)));
    assert "nullable" != "server_default";
    assert IsPlainColumn(plain) && IsPlainColumn(said);
    AcceptedExactly(Op("add_column", [Constant(Str(t)), plain], []));
    AcceptedExactly(NullableColumn(t, c, typ));
  }

  lemma SaName(name: string, full: string)
    requires full == "sa" + "." + name
    ensures Gate.QualifiedName(Sa(name)) == Some(full)
  {
    assert Gate.QualifiedName(Name("sa")) == Some("sa");
  }

  /** `op.create_index("i", "t", ["c"], postgresql_concurrently=True)` */
  lemma ConcurrentIndexIsAccepted(i: string, t: string, c: string)
    ensures Gate.ClassifyCall(Op("create_index", [Constant(Str(i)), Constant(Str(t)), ListOf([Constant(Str(c))])],
                                 [Keyword(Some("postgresql_concurrently"), Constant(Bool(true)))])) == []
  {
    OneKeyword("postgresql_concurrently", Constant(Bool(true)));
    assert "postgresql_concurrently"[0] != "unique"[0] && "postgresql_concurrently"[0] != "schema"[0];
    AcceptedExactly(Op("create_index", [Constant(Str(i)), Constant(Str(t)), ListOf([Constant(Str(c))])],
                       [Keyword(Some("postgresql_concurrently"), Constant(Bool(true)))]));
  }

  /** `op.alter_column("t", "c", nullable=True)` */
  lemma RelaxingIsAccepted(t: string, c: string)
    ensures Gate.ClassifyCall(Op("alter_column", [Constant(Str(t)), Constant(Str(c))],
                                 [Keyword(Some("nullable"), Constant(Bool(true)))])) == []
  {
    OneKeyword("nullable", Constant(Bool(true)));
    AcceptedExactly(Op("alter_column", [Constant(Str(t)), Constant(Str(c))],
                       [Keyword(Some("nullable"), Constant(Bool(true)))]));
  }

  /** create_table whatever its arguments. */
  lemma CreateTableIsAccepted(args: seq<Node>, keywords: seq<Node>)
    ensures Gate.ClassifyCall(Op("create_table", args, keywords)) == []
  {
    AcceptedExactly(Op("create_table", args, keywords));
  }

  /** The constructors inside it, whatever theirs. */
  lemma ConstructorsAreAccepted(name: string, full: string, args: seq<Node>, keywords: seq<Node>)
    requires full == "sa" + "." + name && name != "execute"
    requires full in {"sa.Integer", "sa.String", "sa.Boolean", "sa.DateTime", "sa.Column", "sa.ForeignKeyConstraint",
                      "sa.PrimaryKeyConstraint", "sa.UniqueConstraint", "sa.text"}
    ensures Gate.ClassifyCall(Call(Sa(name), args, keywords)) == []
    ensures Gate.ClassifyCall(Call(Name("JSONB"), args, keywords)) == []
  {
    SaName(name, full);
    assert "sa"[0] != "op"[0];
    AcceptedExactly(Call(Sa(name), args, keywords));
    AcceptedExactly(Call(Name("JSONB"), args, keywords));
  }

  // ---- What the reasons say ------------------------------------------------------------------------------

  ghost predicate NoTexts(ns: seq<Node>, count: nat) {
    |ns| < count || exists i | 0 <= i < count :: !IsText(ns[i])
  }

  ghost predicate AlterTells(c: Node, r: Gate.Reason)
    requires c.Call?
  {
    match r
    case AlterTarget => |c.args| != 2 || NoTexts(c.args, 2)
    case AlterKeywords(_) =>
      !OnlyKeywords(c.keywords,
                    {"nullable", "existing_nullable", "existing_type", "existing_server_default", "schema"})
    case AlterNotNullable => Silent(c.keywords, "nullable")
    case AlterSetsNotNull => Gives(c.keywords, "nullable", Constant(Bool(false)))
    case AlterDynamic => exists v :: Gives(c.keywords, "nullable", v) && !(v.Constant? && v.value.Bool?)
    case _ => false
  }

  ghost predicate IndexTells(c: Node, r: Gate.Reason)
    requires c.Call?
  {
    match r
    case IndexNames => |c.args| != 3 || NoTexts(c.args, 2)
    case IndexColumns => |c.args| == 3 && !((c.args[2].ListOf? || c.args[2].TupleOf?) && c.args[2].elts != [])
    case IndexExpression =>
      |c.args| == 3 && (c.args[2].ListOf? || c.args[2].TupleOf?) && exists e <- c.args[2].elts :: !IsText(e)
    case IndexKeywords(_) => !OnlyKeywords(c.keywords, {"postgresql_concurrently", "schema", "unique"})
    case IndexUnique => exists v :: Gives(c.keywords, "unique", v) && v != Constant(Bool(false))
    case IndexSchema => exists v :: Gives(c.keywords, "schema", v) && !IsText(v)
    case IndexNotConcurrent => !Gives(c.keywords, "postgresql_concurrently", Constant(Bool(true)))
    case _ => false
  }

  ghost predicate ColumnTells(c: Node, r: Gate.Reason)
    requires c.Call?
  {
    match r
    case ColumnTable => |c.args| != 2 || NoTexts(c.args, 1)
    case ColumnOpKeywords => c.keywords != []
    case ColumnDynamic =>
      |c.args| == 2 && !(c.args[1].Call? && Gate.QualifiedName(c.args[1].func) == Some("sa.Column"))
    case ColumnShape => |c.args| == 2 && c.args[1].Call? && (|c.args[1].args| != 2 || NoTexts(c.args[1].args, 1))
    case _ => |c.args| == 2 && c.args[1].Call? && OptionsTell(c.args[1].keywords, r)
  }

  /** The same for the keywords of the column. */
  ghost predicate OptionsTell(keywords: seq<Node>, r: Gate.Reason) {
    match r
    case ColumnKeywords(_) => !OnlyKeywords(keywords, {"nullable", "server_default"})
    case ColumnNullableDynamic => exists v :: Gives(keywords, "nullable", v) && !(v.Constant? && v.value.Bool?)
    case ColumnDefault => exists v :: Gives(keywords, "server_default", v) && !IsStaticDefault(v)
    case ColumnNotNullNoDefault =>
      Gives(keywords, "nullable", Constant(Bool(false))) && Silent(keywords, "server_default")
    case _ => false
  }

  ghost predicate ExecuteTells(c: Node, r: Gate.Reason)
    requires c.Call?
  {
    match r
    case ExecuteNoSql => c.args == []
    case ExecuteDynamic => c.args != [] && forall sql :: !Wraps(c.args[0], sql)
    case ExecuteDestructive =>
      c.args != [] && exists sql :: Wraps(c.args[0], sql) && IsDestructive(sql) && !IsSetOrComment(sql)
    case ExecuteNotAllowlisted =>
      c.args != [] && exists sql :: Wraps(c.args[0], sql) && !IsDestructive(sql) && !IsSetOrComment(sql)
    case _ => false
  }

  ghost predicate OtherTells(c: Node, r: Gate.Reason)
    requires c.Call?
  {
    match r
    case Destructive(op) => IsOpCall(c, op) && "drop_" <= op
    case RenameTable => IsOpCall(c, "rename_table")
    case BlockedConstraint(op) =>
      IsOpCall(c, op) && op in {"create_unique_constraint", "create_foreign_key", "create_check_constraint"}
    case GetBind => IsOpCall(c, "get_bind")
    case UnknownOp =>
      c.func.Attribute? && c.func.base == Name("op") && !("drop_" <= c.func.attr)
      && c.func.attr !in {"rename_table", "create_unique_constraint", "create_foreign_key",
                          "create_check_constraint", "get_bind", "create_table"}
    case BindExecute => c.func.Attribute? && c.func.attr == "execute" && c.func.base != Name("op")
    case UnknownHelper =>
      !(c.func.Attribute? && (c.func.attr == "execute" || c.func.base == Name("op"))) && !IsConstructor(c)
    case _ => false
  }

  /** The reason is true of the call. */
  ghost predicate IsTrueOf(c: Node, r: Gate.Reason)
    requires c.Call?
  {
    if IsOpCall(c, "alter_column") then AlterTells(c, r)
    else if IsOpCall(c, "create_index") then IndexTells(c, r)
    else if IsOpCall(c, "add_column") then ColumnTells(c, r)
    else if IsOpCall(c, "execute") then ExecuteTells(c, r)
    else OtherTells(c, r)
  }

  lemma AlterReasons(c: Node, r: Gate.Reason)
    requires IsOpCall(c, "alter_column") && r in Gate.ClassifyAlterColumn(c.args, c.keywords)
    ensures AlterTells(c, r)
  {
    NothingUnsupported(c.keywords,
                       {"existing_nullable", "existing_server_default", "existing_type", "nullable", "schema"});
    KeywordIs(c.keywords, "nullable");
  }

  lemma IndexReasons(c: Node, r: Gate.Reason)
    requires IsOpCall(c, "create_index") && r in Gate.ClassifyCreateIndex(c.args, c.keywords)
    ensures IndexTells(c, r)
  {
    NothingUnsupported(c.keywords, {"postgresql_concurrently", "schema", "unique"});
    SaysBool(c.keywords, "postgresql_concurrently", true);
    TextsOf(c.args);
    if |c.args| == 3 && (c.args[2].ListOf? || c.args[2].TupleOf?) {
      TextsOf(c.args[2].elts);
    }
    if r.IndexUnique? {
      KeywordIs(c.keywords, "unique");
    } else if r.IndexSchema? {
      KeywordIs(c.keywords, "schema");
    }
  }

  lemma OptionReasons(keywords: seq<Node>, r: Gate.Reason)
    requires r in Gate.ClassifyColumnOptions(keywords)
    ensures OptionsTell(keywords, r)
  {
    NothingUnsupported(keywords, {"nullable", "server_default"});
    KeywordIs(keywords, "nullable");
    KeywordIs(keywords, "server_default");
    var default := Gate.KeywordValue(keywords, "server_default");
    if default.Some? {
      StaticDefaultIs(default.value);
    }
  }

  lemma ColumnReasons(c: Node, r: Gate.Reason)
    requires IsOpCall(c, "add_column") && r in Gate.ClassifyAddColumn(c.args, c.keywords)
    ensures ColumnTells(c, r)
  {
    if |c.args| == 2 && c.args[1].Call? && r in Gate.ClassifyColumnOptions(c.args[1].keywords) {
      OptionReasons(c.args[1].keywords, r);
    }
  }

  lemma ExecuteReasons(c: Node, r: Gate.Reason)
    requires IsOpCall(c, "execute") && r in Gate.ClassifyExecute(c.args)
    ensures ExecuteTells(c, r)
  {
    if c.args != [] {
      forall sql
        ensures Gate.LiteralSql(c.args[0]) == Some(sql) <==> Wraps(c.args[0], sql)
        ensures IsAllowlistedSql(sql) <==> IsSetOrComment(sql)
      {
        LiteralSqlIs(c.args[0], sql);
        AllowlistedMeans(sql);
      }
    }
  }

  lemma AtMostOne(c: Node)
    requires c.Call?
    ensures |Gate.ClassifyCall(c)| <= 1
  {
  }

  lemma OtherReasons(c: Node, r: Gate.Reason)
    requires c.Call? && r in Gate.ClassifyCall(c)
    requires !IsOpCall(c, "alter_column") && !IsOpCall(c, "create_index") && !IsOpCall(c, "add_column")
    requires !IsOpCall(c, "execute")
    ensures OtherTells(c, r)
  {
    if Gate.OpCallName(c).Some? {
      assert IsOpCall(c, Gate.OpCallName(c).value);
    }
  }

  lemma OpReasons(c: Node)
    requires c.Call?
    ensures IsOpCall(c, "alter_column") ==> Gate.ClassifyCall(c) == Gate.ClassifyAlterColumn(c.args, c.keywords)
    ensures IsOpCall(c, "create_index") ==> Gate.ClassifyCall(c) == Gate.ClassifyCreateIndex(c.args, c.keywords)
    ensures IsOpCall(c, "add_column") ==> Gate.ClassifyCall(c) == Gate.ClassifyAddColumn(c.args, c.keywords)
    ensures IsOpCall(c, "execute") ==> Gate.ClassifyCall(c) == Gate.ClassifyExecute(c.args)
  {
    OpNames();
  }

  /** Every reason that is reported is true of the call it is reported for, and a call carries at most one. */
  lemma ReasonsAreTrue(c: Node, r: Gate.Reason)
    requires c.Call? && r in Gate.ClassifyCall(c)
    ensures IsTrueOf(c, r) && Gate.ClassifyCall(c) == [r]
  {
    AtMostOne(c);
    OpReasons(c);
    if IsOpCall(c, "alter_column") {
      AlterReasons(c, r);
    } else if IsOpCall(c, "create_index") {
      IndexReasons(c, r);
    } else if IsOpCall(c, "add_column") {
      ColumnReasons(c, r);
    } else if IsOpCall(c, "execute") {
      ExecuteReasons(c, r);
    } else {
      OtherReasons(c, r);
    }
  }
}
