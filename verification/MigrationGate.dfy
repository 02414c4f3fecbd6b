/** The expand/contract gate: what it accepts in a revision file, and how the answers for the
    files of a range combine. */
module MigrationGate {
  import opened Prelude
  import opened PyAst
  import opened SqlText

  // ---- Names --------------------------------------------------------------------------------

  const BLOCKED_CONSTRAINT_OPS := {"create_unique_constraint", "create_foreign_key", "create_check_constraint"}
  const ALLOWED_OPS := {"create_table"}
  const ALLOWED_TYPE_CONSTRUCTORS := {"HALFVEC", "JSONB", "PgUUID"}
  const ALLOWED_SERVER_DEFAULT_CALLS := {"sa.false", "sa.func.now", "sa.text", "sa.true"}
  const ALLOWED_SA_CONSTRUCTORS := {
    "sa.BigInteger", "sa.Boolean", "sa.CheckConstraint", "sa.Column", "sa.Date", "sa.DateTime", "sa.Enum",
    "sa.Float", "sa.ForeignKey", "sa.ForeignKeyConstraint", "sa.Identity", "sa.Index", "sa.Integer", "sa.JSON",
    "sa.LargeBinary", "sa.Numeric", "sa.PrimaryKeyConstraint", "sa.SmallInteger", "sa.String", "sa.Text",
    "sa.Time", "sa.UniqueConstraint", "sa.Uuid", "sa.false", "sa.func.now", "sa.text", "sa.true"}

  /** Why a call is not auto-allowed; one constructor per message of the source. */
  datatype Reason =
    | Destructive(op: string) | RenameTable | BlockedConstraint(op: string) | GetBind | UnknownOp
    | BindExecute | UnknownHelper
    | AlterTarget | AlterKeywords(names: multiset<string>) | AlterNotNullable | AlterSetsNotNull | AlterDynamic
    | IndexNames | IndexColumns | IndexExpression | IndexKeywords(names: multiset<string>)
    | IndexUnique | IndexSchema | IndexNotConcurrent
    | ColumnTable | ColumnOpKeywords | ColumnDynamic | ColumnShape | ColumnKeywords(names: multiset<string>)
    | ColumnNullableDynamic | ColumnDefault | ColumnNotNullNoDefault
    | ExecuteNoSql | ExecuteDynamic | ExecuteDestructive | ExecuteNotAllowlisted
    | KindMissing | KindNotLiteral | KindInvalid | NoUpgrade | Unreadable | Unparsable

  // ---- Reading literals -----------------------------------------------------------------------

  function LiteralString(n: Node): Option<string> {
    if n.Constant? && n.value.Str? then Some(n.value.s) else None
  }

  function LiteralBool(n: Node): Option<bool> {
    if n.Constant? && n.value.Bool? then Some(n.value.b) else None
  }

  predicate IsName(n: Node, name: string) { n.Name? && n.id == name }

  function QualifiedName(n: Node): Option<string> {
    match n
    case Name(id) => Some(id)
    case Attribute(base, attr) =>
      (match QualifiedName(base)
       case Some(q) => Some(q + "." + attr)
       case None => None)
    case _ => None
  }

  /** The name parts, collected from the outside in and joined the other way round. */
  method ReadQualifiedName(node: Node) returns (r: Option<string>)
    ensures r == QualifiedName(node)
  {
    var suffix, current := "", node;
    assert forall q: string :: q + suffix == q;
    while current.Attribute?
      invariant QualifiedName(node) ==
        (match QualifiedName(current) case Some(q) => Some(q + suffix) case None => None)
      decreases current
    {
      ghost var q := QualifiedName(current.base);
      assert q.Some? ==> (q.value + "." + current.attr) + suffix == q.value + ("." + current.attr + suffix);
      suffix, current := "." + current.attr + suffix, current.base;
    }
    if current.Name? {
      return Some(current.id + suffix);
    }
    return None;
  }

  function OpCallName(call: Node): Option<string> {
    if call.Call? && call.func.Attribute? && IsName(call.func.base, "op") then Some(call.func.attr) else None
  }

  function ArgName(k: Node): string {
    if k.Keyword? && k.arg.Some? then k.arg.value else "**kwargs"
  }

  function KeywordValue(keywords: seq<Node>, name: string): Option<Node> {
    if keywords == [] then None
    else if keywords[0].Keyword? && keywords[0].arg == Some(name) then Some(keywords[0].val)
    else KeywordValue(keywords[1..], name)
  }

  function Unsupported(keywords: seq<Node>, allowed: set<string>): multiset<string> {
    if keywords == [] then multiset{}
    else
      (if keywords[0].Keyword? && keywords[0].arg.Some? && keywords[0].arg.value in allowed then multiset{}
       else multiset{ArgName(keywords[0])}) + Unsupported(keywords[1..], allowed)
  }

  function LiteralSql(n: Node): Option<string> {
    match n
    case Constant(Str(s)) => Some(s)
    case Call(func, args, _) =>
      if args != [] && ((func.Attribute? && func.attr == "text") || IsName(func, "text")) then LiteralSql(args[0])
      else None
    case _ => None
  }

  // ---- Calls ----------------------------------------------------------------------------------

  function ClassifyAlterColumn(args: seq<Node>, keywords: seq<Node>): seq<Reason> {
    var unsupported := Unsupported(keywords, {"existing_nullable", "existing_server_default", "existing_type",
                                              "nullable", "schema"});
    if |args| != 2 || LiteralString(args[0]).None? || LiteralString(args[1]).None? then [AlterTarget]
    else if unsupported != multiset{} then [AlterKeywords(unsupported)]
    else match KeywordValue(keywords, "nullable")
      case None => [AlterNotNullable]
      case Some(v) =>
        if LiteralBool(v) == Some(false) then [AlterSetsNotNull]
        else if LiteralBool(v) == None then [AlterDynamic]
        else []
  }

  predicate AllLiteral(ns: seq<Node>) { forall n <- ns :: LiteralString(n).Some? }

  function ClassifyCreateIndex(args: seq<Node>, keywords: seq<Node>): seq<Reason> {
    var unsupported := Unsupported(keywords, {"postgresql_concurrently", "schema", "unique"});
    var unique, schema := KeywordValue(keywords, "unique"), KeywordValue(keywords, "schema");
    var concurrently := KeywordValue(keywords, "postgresql_concurrently");
    if |args| != 3 || !AllLiteral(args[..2]) then [IndexNames]
    else if !(args[2].ListOf? || args[2].TupleOf?) || args[2].elts == [] then [IndexColumns]
    else if !AllLiteral(args[2].elts) then [IndexExpression]
    else if unsupported != multiset{} then [IndexKeywords(unsupported)]
    else if unique.Some? && LiteralBool(unique.value) != Some(false) then [IndexUnique]
    else if schema.Some? && LiteralString(schema.value).None? then [IndexSchema]
    else if concurrently.Some? && LiteralBool(concurrently.value) == Some(true) then []
    else [IndexNotConcurrent]
  }

  predicate IsStaticServerDefault(n: Node) {
    match n
    case Constant(v) => v.Str? || v.Bool? || v.Number?
    case Call(func, args, keywords) =>
      var name := QualifiedName(func);
      && name.Some? && name.value in ALLOWED_SERVER_DEFAULT_CALLS && keywords == []
      && (if name.value == "sa.text" then |args| == 1 && LiteralString(args[0]).Some? else args == [])
    case _ => false
  }

  function ClassifyAddColumn(args: seq<Node>, keywords: seq<Node>): seq<Reason> {
    if |args| != 2 || LiteralString(args[0]).None? then [ColumnTable]
    else if keywords != [] then [ColumnOpKeywords]
    else if !args[1].Call? || QualifiedName(args[1].func) != Some("sa.Column") then [ColumnDynamic]
    else if |args[1].args| != 2 || LiteralString(args[1].args[0]).None? then [ColumnShape]
    else ClassifyColumnOptions(args[1].keywords)
  }

  function ClassifyColumnOptions(keywords: seq<Node>): seq<Reason> {
    var unsupported := Unsupported(keywords, {"nullable", "server_default"});
    var nullableArg, default := KeywordValue(keywords, "nullable"), KeywordValue(keywords, "server_default");
    var nullable := if nullableArg.None? then Some(true) else LiteralBool(nullableArg.value);
    if unsupported != multiset{} then [ColumnKeywords(unsupported)]
    else if nullable.None? then [ColumnNullableDynamic]
    else if default.Some? && !IsStaticServerDefault(default.value) then [ColumnDefault]
    else if nullable == Some(false) && default.None? then [ColumnNotNullNoDefault]
    else []
  }

  function ClassifyExecute(args: seq<Node>): seq<Reason> {
    if args == [] then [ExecuteNoSql]
    else match LiteralSql(args[0])
      case None => [ExecuteDynamic]
      case Some(sql) =>
        if IsAllowlistedSql(sql) then []
        else if IsDestructive(sql) then [ExecuteDestructive]
        else [ExecuteNotAllowlisted]
  }

  function ClassifyOpCall(op: string, args: seq<Node>, keywords: seq<Node>): seq<Reason> {
    if "drop_" <= op then [Destructive(op)]
    else if op == "rename_table" then [RenameTable]
    else if op == "alter_column" then ClassifyAlterColumn(args, keywords)
    else if op in BLOCKED_CONSTRAINT_OPS then [BlockedConstraint(op)]
    else if op == "create_index" then ClassifyCreateIndex(args, keywords)
    else if op == "add_column" then ClassifyAddColumn(args, keywords)
    else if op == "get_bind" then [GetBind]
    else if op == "execute" then ClassifyExecute(args)
    else if op in ALLOWED_OPS then []
    else [UnknownOp]
  }

  predicate IsAllowlistedConstructor(func: Node) {
    if func.Name? then func.id in ALLOWED_TYPE_CONSTRUCTORS
    else var q := QualifiedName(func); q.Some? && q.value in ALLOWED_SA_CONSTRUCTORS
  }

  function ClassifyCall(call: Node): seq<Reason>
    requires call.Call?
  {
    var op := OpCallName(call);
    if op.Some? then ClassifyOpCall(op.value, call.args, call.keywords)
    else if call.func.Attribute? && call.func.attr == "execute" then [BindExecute]
    else if IsAllowlistedConstructor(call.func) then []
    else [UnknownHelper]
  }

  // ---- One function body ------------------------------------------------------------------------

  /** The calls anywhere in the tree that carry a reason. */
  ghost predicate HasReason(n: Node, r: Reason) {
    exists c :: c in Nodes(n) && c.Call? && r in ClassifyCall(c)
  }

  ghost predicate AllCallsAllowed(n: Node) {
    forall c :: c in Nodes(n) && c.Call? ==> ClassifyCall(c) == []
  }

  /** dict.fromkeys keeps the first of equal reasons. */
  method Distinct(reasons: seq<Reason>) returns (r: seq<Reason>)
    ensures r == Dedup(reasons) && FirstUses(reasons, r)
  {
    r := [];
    for i := 0 to |reasons|
      invariant r == Dedup(reasons[..i])
    {
      var prefix := reasons[..i + 1];
      assert prefix[..i] == reasons[..i] && prefix == reasons[..i] + [reasons[i]];
      DedupIsFirstUses(reasons[..i]);
      if reasons[i] !in r {
        r := r + [reasons[i]];
      }
    }
    assert reasons[..|reasons|] == reasons;
    DedupIsFirstUses(reasons);
  }

  /** The reasons of all calls in a list of nodes, in order and with repetitions. */
  function CallReasons(nodes: seq<Node>): seq<Reason> {
    if nodes == [] then []
    else
      var n := |nodes| - 1;
      CallReasons(nodes[..n]) + (if nodes[n].Call? then ClassifyCall(nodes[n]) else [])
  }

  lemma {:induction false} CallReasonsMeans(nodes: seq<Node>, r: Reason)
    ensures r in CallReasons(nodes) <==> exists c <- nodes :: c.Call? && r in ClassifyCall(c)
  {
    if nodes != [] {
      var n := |nodes| - 1;
      CallReasonsMeans(nodes[..n], r);
      assert nodes == nodes[..n] + [nodes[n]];
    }
  }

  /** The reasons against a function body: those of its calls, level by level, each at its first use. */
  ghost function BodyReasons(node: Node): seq<Reason> {
    Dedup(CallReasons(LevelOrder(node)))
  }

  /** Fail-closed: the reasons are those of every call at any depth, so there are none only if
      every single call is allowlisted. */
  method ScanUpgradeBody(node: Node) returns (reasons: seq<Reason>)
    ensures reasons == BodyReasons(node)
    ensures forall r :: r in reasons <==> HasReason(node, r)
    ensures reasons == [] <==> AllCallsAllowed(node)
  {
    var nodes := Walk(node);
    var found: seq<Reason> := [];
    for i := 0 to |nodes|
      invariant found == CallReasons(nodes[..i])
    {
      assert nodes[..i + 1][..i] == nodes[..i];
      if nodes[i].Call? {
        found := found + ClassifyCall(nodes[i]);
      }
    }
    assert nodes[..|nodes|] == nodes;
    reasons := Distinct(found);
    BodyReasonsMeans(node);
  }

  lemma BodyReasonsMeans(n: Node)
    ensures forall r :: r in BodyReasons(n) <==> HasReason(n, r)
    ensures BodyReasons(n) == [] <==> AllCallsAllowed(n)
  {
    var nodes := LevelOrder(n);
    LevelOrderIsNodes(n);
    assert forall c :: c in nodes <==> c in multiset(nodes);
    DedupIsFirstUses(CallReasons(nodes));
    forall r
      ensures r in BodyReasons(n) <==> HasReason(n, r)
    {
      CallReasonsMeans(nodes, r);
    }
    NoReasonMeansAllowed(n, BodyReasons(n));
  }

  lemma NoReasonMeansAllowed(n: Node, reasons: seq<Reason>)
    requires forall r :: r in reasons <==> HasReason(n, r)
    ensures reasons == [] <==> AllCallsAllowed(n)
  {
    if reasons == [] {
      forall c | c in Nodes(n) && c.Call?
        ensures ClassifyCall(c) == []
      {
        if ClassifyCall(c) != [] {
          assert HasReason(n, ClassifyCall(c)[0]);
        }
      }
    } else {
      assert HasReason(n, reasons[0]);
    }
  }

  // ---- One file -----------------------------------------------------------------------------------

  datatype Kind = ExpandKind | ContractKind | Unknown

  datatype Classification = Classification(
    kind: Kind, declared: Option<string>, reasons: seq<Reason>, mislabelled: bool)
  {
    predicate AutoAllowed() { kind.ExpandKind? && reasons == [] }
  }

  /** What reading and parsing a file gives: the module's statements, or a failure. */
  datatype File = CannotRead | CannotParse | Module(body: seq<Node>)

  function DeclarationReason(value: Option<Node>): Option<Reason> {
    var declared := if value.Some? then LiteralString(value.value) else None;
    if declared in {Some("expand"), Some("contract")} then None
    else if declared.None? then Some(KindNotLiteral)
    else Some(KindInvalid)
  }

  predicate DeclaresKind(n: Node) {
    || (n.Assign? && exists t <- n.targets :: IsName(t, "MIGRATION_KIND"))
    || (n.AnnAssign? && IsName(n.target, "MIGRATION_KIND"))
  }

  /** The first module-level declaration decides. */
  function ReadDeclaredKind(body: seq<Node>): (Option<string>, Option<Reason>) {
    if body == [] then (None, Some(KindMissing))
    else if DeclaresKind(body[0]) then
      var value := if body[0].Assign? then Some(body[0].val) else body[0].init;
      (if value.Some? then LiteralString(value.value) else None, DeclarationReason(value))
    else ReadDeclaredKind(body[1..])
  }

  function FindFunction(body: seq<Node>, name: string): (r: Option<Node>)
    ensures r.Some? ==> r.value in body && r.value.Function? && r.value.name == name
  {
    if body == [] then None
    else if body[0].Function? && body[0].name == name then Some(body[0])
    else FindFunction(body[1..], name)
  }

  /** The reasons against a file whose declaration or upgrade() is not as it should be. */
  function StructuralReasons(body: seq<Node>): seq<Reason> {
    (match ReadDeclaredKind(body).1 case Some(r) => [r] case None => []) +
    (if FindFunction(body, "upgrade").None? then [NoUpgrade] else [])
  }

  /** What the classification of a file must be, in terms of its declaration and its calls. */
  ghost predicate IsClassificationOf(file: File, c: Classification) {
    match file
    case CannotRead => c == Classification(Unknown, None, [Unreadable], false)
    case CannotParse => c == Classification(Unknown, None, [Unparsable], false)
    case Module(body) =>
      var upgrade := FindFunction(body, "upgrade");
      && c.declared == ReadDeclaredKind(body).0
      && (c.kind.Unknown? <==> c.declared !in {Some("expand"), Some("contract")} || upgrade.None?)
      && (c.kind.Unknown? ==> c.reasons == StructuralReasons(body) != [] && !c.mislabelled)
      && (!c.kind.Unknown? ==>
            && c.reasons == BodyReasons(upgrade.value)
            && (c.kind.ExpandKind? <==> c.declared == Some("expand") && AllCallsAllowed(upgrade.value))
            && (c.mislabelled <==> c.declared == Some("expand") && !AllCallsAllowed(upgrade.value)))
  }

  /** It leaves nothing open. */
  lemma ClassificationIsUnique(file: File, c: Classification, d: Classification)
    requires IsClassificationOf(file, c) && IsClassificationOf(file, d)
    ensures c == d
  {
  }

  method Classify(file: File) returns (c: Classification)
    ensures IsClassificationOf(file, c)
  {
    match file {
      case CannotRead => return Classification(Unknown, None, [Unreadable], false);
      case CannotParse => return Classification(Unknown, None, [Unparsable], false);
      case Module(body) =>
        var (declared, why) := ReadDeclaredKind(body);
        DeclarationGivesReason(body);
        var upgrade := FindFunction(body, "upgrade");
        var structural := if why.Some? then [why.value] else [];
        if upgrade.None? {
          structural := structural + [NoUpgrade];
        }
        if declared !in {Some("expand"), Some("contract")} || upgrade.None? {
          return Classification(Unknown, declared, structural, false);
        }
        var backstop := ScanUpgradeBody(upgrade.value);
        if declared == Some("contract") {
          return Classification(ContractKind, declared, backstop, false);
        }
        if backstop != [] {
          return Classification(ContractKind, declared, backstop, true);
        }
        return Classification(ExpandKind, declared, [], false);
    }
  }

  lemma {:induction false} DeclarationGivesReason(body: seq<Node>)
    ensures ReadDeclaredKind(body).0 in {Some("expand"), Some("contract")} <==> ReadDeclaredKind(body).1.None?
  {
    if body != [] && !DeclaresKind(body[0]) {
      DeclarationGivesReason(body[1..]);
    }
  }

  // ---- A range of files -------------------------------------------------------------------------------

  datatype Decision = Nothing | Expand | Manual | Invalid

  function Decide(cs: seq<Classification>): Decision {
    if cs == [] then Nothing
    else if exists c <- cs :: c.kind.Unknown? || c.mislabelled then Invalid
    else if (set c <- cs :: c.kind) == {ExpandKind, ContractKind} then Invalid
    else if forall c <- cs :: c.AutoAllowed() then Expand
    else Manual
  }

  ghost predicate AreClassificationsOf(files: seq<File>, cs: seq<Classification>) {
    |cs| == |files| && forall i :: 0 <= i < |files| ==> IsClassificationOf(files[i], cs[i])
  }

  lemma OneMoreClassified(files: seq<File>, i: nat, cs: seq<Classification>, c: Classification)
    requires i < |files| && AreClassificationsOf(files[..i], cs) && IsClassificationOf(files[i], c)
    ensures AreClassificationsOf(files[..i + 1], cs + [c])
  {
  }

  /** `decide_changed_migrations` */
  method DecideChanged(files: seq<File>) returns (decision: Decision, cs: seq<Classification>)
    ensures AreClassificationsOf(files, cs) && decision == Decide(cs)
  {
    cs := [];
    for i := 0 to |files|
      invariant AreClassificationsOf(files[..i], cs)
    {
      var c := Classify(files[i]);
      OneMoreClassified(files, i, cs, c);
      cs := cs + [c];
    }
    assert files[..|files|] == files;
    decision := Decide(cs);
  }

  /** The pending gate looks at the files one by one. */
  method PendingGate(files: seq<File>) returns (exitCode: int, cs: seq<Classification>)
    ensures AreClassificationsOf(files, cs)
    ensures exitCode == if Decide(cs) in {Nothing, Expand} then 0 else 1
  {
    cs := [];
    var blocked := false;
    for i := 0 to |files|
      invariant AreClassificationsOf(files[..i], cs)
      invariant blocked <==> exists c <- cs :: !c.AutoAllowed()
    {
      var c := Classify(files[i]);
      OneMoreClassified(files, i, cs, c);
      cs := cs + [c];
      if !c.AutoAllowed() {
        blocked := true;
      }
    }
    assert files[..|files|] == files;
    exitCode := if blocked then 1 else 0;
    PassesIffAllAutoAllowed(files, cs);
  }

  /** The set decision and the file-by-file gate agree. */
  lemma PassesIffAllAutoAllowed(files: seq<File>, cs: seq<Classification>)
    requires AreClassificationsOf(files, cs)
    ensures Decide(cs) in {Nothing, Expand} <==> forall c <- cs :: c.AutoAllowed()
  {
    if forall c <- cs :: c.AutoAllowed() {
      forall c | c in cs
        ensures !c.mislabelled
      {
        var i :| 0 <= i < |cs| && cs[i] == c;
        assert IsClassificationOf(files[i], cs[i]);
      }
      assert ContractKind !in (set c <- cs :: c.kind);
    }
  }

  /** Manual stands for a range of contract files, none of them mislabelled. */
  lemma ManualIffAllContract(files: seq<File>, cs: seq<Classification>)
    requires AreClassificationsOf(files, cs)
    ensures Decide(cs) == Manual <==> cs != [] && forall c <- cs :: c.kind.ContractKind? && !c.mislabelled
  {
    if Decide(cs) == Manual {
      var d :| d in cs && !d.AutoAllowed();
      var i :| 0 <= i < |cs| && cs[i] == d;
      BodyReasonsMeans(FindFunction(files[i].body, "upgrade").value);
      forall c | c in cs
        ensures c.kind.ContractKind?
      {
        if c.kind.ExpandKind? {
          MixedIsInvalid(cs, c, d);
        }
      }
    } else if cs != [] && forall c <- cs :: c.kind.ContractKind? && !c.mislabelled {
      assert ExpandKind !in (set c <- cs :: c.kind) && !cs[0].AutoAllowed();
    }
  }

  /** The decision depends on the set of files only: not on their order, and not on how often one is
      listed. */
  lemma DecideIsSetDecision(files: seq<File>, more: seq<File>, cs: seq<Classification>, ds: seq<Classification>)
    requires AreClassificationsOf(files, cs) && AreClassificationsOf(more, ds)
    requires forall f :: f in files <==> f in more
    ensures Decide(cs) == Decide(ds)
  {
    SameFilesSameAnswers(files, more, cs, ds);
    SameFilesSameAnswers(more, files, ds, cs);
    assert forall c :: c in cs <==> c in ds;
    assert (set c <- cs :: c.kind) == (set c <- ds :: c.kind);
  }

  lemma SameFilesSameAnswers(files: seq<File>, more: seq<File>, cs: seq<Classification>, ds: seq<Classification>)
    requires AreClassificationsOf(files, cs) && AreClassificationsOf(more, ds)
    requires forall f <- files :: f in more
    ensures forall c <- cs :: c in ds
    ensures ds == [] ==> cs == []
  {
    forall c | c in cs
      ensures c in ds
    {
      var i :| 0 <= i < |cs| && cs[i] == c;
      assert files[i] in files;
      var j :| 0 <= j < |more| && more[j] == files[i];
      ClassificationIsUnique(files[i], cs[i], ds[j]);
    }
    assert cs != [] ==> cs[0] in ds;
  }

  /** An expand file and a contract file together are never applied, by either route. */
  lemma MixedIsInvalid(cs: seq<Classification>, a: Classification, b: Classification)
    requires a in cs && b in cs && a.kind.ExpandKind? && b.kind.ContractKind?
    ensures Decide(cs) == Invalid
  {
    if forall c <- cs :: !c.kind.Unknown? {
      var kinds := set c <- cs :: c.kind;
      assert a.kind in kinds && b.kind in kinds;
      assert kinds == {ExpandKind, ContractKind};
    }
  }
}
