/** Python syntax trees, as far as the migration gate looks into them, and the walk over one. */
module PyAst {
  import opened Prelude

  datatype Literal = Str(s: string) | Bool(b: bool) | Number | NoneLiteral | OtherLiteral

  /** `Other` is any node the gate has no case for; it only contributes its children. */
  datatype Node =
    | Constant(value: Literal)
    | Name(id: string)
    | Attribute(base: Node, attr: string)
    | Call(func: Node, args: seq<Node>, keywords: seq<Node>)
    | Keyword(arg: Option<string>, val: Node)
    | ListOf(elts: seq<Node>)
    | TupleOf(elts: seq<Node>)
    | Assign(targets: seq<Node>, val: Node)
    | AnnAssign(target: Node, annotation: Node, init: Option<Node>)
    | Function(name: string, parts: seq<Node>)
    | Other(parts: seq<Node>)

  function Children(n: Node): (cs: seq<Node>)
    ensures forall c <- cs :: c < n
  {
    match n
    case Constant(_) => []
    case Name(_) => []
    case Attribute(base, _) => [base]
    case Call(func, args, keywords) => [func] + args + keywords
    case Keyword(_, v) => [v]
    case ListOf(elts) => elts
    case TupleOf(elts) => elts
    case Assign(targets, v) => targets + [v]
    case AnnAssign(t, a, init) => [t, a] + (if init.Some? then [init.value] else [])
    case Function(_, parts) => parts
    case Other(parts) => parts
  }

  /** Every node of the tree, as often as it occurs. */
  ghost function Nodes(n: Node): multiset<Node>
    decreases n, 1, 0
  {
    multiset{n} + NodesBelow(n, Children(n))
  }

  ghost function NodesBelow(top: Node, ns: seq<Node>): multiset<Node>
    requires forall c <- ns :: c < top
    decreases top, 0, |ns|
  {
    if ns == [] then multiset{}
    else
      assert forall c <- ns[1..] :: c in ns;
      assert ns[0] in ns;
      Nodes(ns[0]) + NodesBelow(top, ns[1..])
  }

  ghost function Total<T>(f: T -> multiset<Node>, ts: seq<T>): multiset<Node> {
    if ts == [] then multiset{} else f(ts[0]) + Total(f, ts[1..])
  }

  lemma {:induction false} TotalConcat<T>(f: T -> multiset<Node>, a: seq<T>, b: seq<T>)
    ensures Total(f, a + b) == Total(f, a) + Total(f, b)
  {
    if a == [] {
      assert a + b == b;
    } else {
      TotalConcat(f, a[1..], b);
      assert (a + b)[1..] == a[1..] + b;
    }
  }

  lemma TotalOne<T>(f: T -> multiset<Node>, t: T)
    ensures Total(f, [t]) == f(t)
  {
    assert [t][1..] == [];
  }

  ghost function NodesOf(ns: seq<Node>): multiset<Node> {
    Total((m: Node) => Nodes(m), ns)
  }

  lemma {:induction false} NodesBelowIsNodesOf(top: Node, ns: seq<Node>)
    requires forall c <- ns :: c < top
    ensures NodesBelow(top, ns) == NodesOf(ns)
    decreases |ns|
  {
    if ns != [] {
      assert forall c <- ns[1..] :: c in ns;
      NodesBelowIsNodesOf(top, ns[1..]);
    }
  }

  lemma NodesOfConcat(a: seq<Node>, b: seq<Node>)
    ensures NodesOf(a + b) == NodesOf(a) + NodesOf(b)
  {
    TotalConcat((m: Node) => Nodes(m), a, b);
  }

  /** Taking a node off the queue and appending its children. */
  lemma QueueStep(todo: seq<Node>)
    requires todo != []
    ensures NodesOf(todo) == multiset{todo[0]} + NodesOf(todo[1..] + Children(todo[0]))
  {
    var n := todo[0];
    NodesBelowIsNodesOf(n, Children(n));
    NodesOfConcat(todo[1..], Children(n));
    assert Nodes(n) == multiset{n} + NodesOf(Children(n));
  }

  lemma NodesOfOne(n: Node)
    ensures NodesOf([n]) == Nodes(n)
  {
    TotalOne((m: Node) => Nodes(m), n);
  }

  // ---- The order of the walk -----------------------------------------------------------------------

  /** The next level of the tree: all children, left to right. */
  function ChildrenOf(ns: seq<Node>): seq<Node> {
    if ns == [] then [] else ChildrenOf(ns[..|ns| - 1]) + Children(ns[|ns| - 1])
  }

  lemma ChildrenOfOneMore(ns: seq<Node>, n: Node)
    ensures ChildrenOf(ns + [n]) == ChildrenOf(ns) + Children(n)
  {
    assert (ns + [n])[..|ns|] == ns;
  }

  lemma NodeAndBelow(n: Node)
    ensures NodesOf([n]) == multiset{n} + NodesOf(Children(n))
  {
    NodesOfOne(n);
    NodesBelowIsNodesOf(n, Children(n));
  }

  lemma {:induction false} LevelStep(ns: seq<Node>)
    ensures NodesOf(ns) == multiset(ns) + NodesOf(ChildrenOf(ns))
  {
    if ns != [] {
      var front, n := ns[..|ns| - 1], ns[|ns| - 1];
      LevelStep(front);
      assert ns == front + [n];
      NodesOfConcat(front, [n]);
      NodeAndBelow(n);
      NodesOfConcat(ChildrenOf(front), Children(n));
    }
  }

  /** The nodes level by level: first `ns`, then their children, and so on. */
  ghost function Levels(ns: seq<Node>): seq<Node>
    decreases |NodesOf(ns)|
  {
    if ns == [] then []
    else
      LevelStep(ns);
      ns + Levels(ChildrenOf(ns))
  }

  ghost function LevelOrder(root: Node): seq<Node> {
    Levels([root])
  }

  /** Each occurrence of a node comes exactly once in the order. */
  lemma {:induction false} LevelsAreNodes(ns: seq<Node>)
    ensures multiset(Levels(ns)) == NodesOf(ns)
    decreases |NodesOf(ns)|
  {
    if ns != [] {
      LevelStep(ns);
      LevelsAreNodes(ChildrenOf(ns));
    }
  }

  lemma LevelOrderIsNodes(root: Node)
    ensures multiset(LevelOrder(root)) == Nodes(root)
  {
    LevelsAreNodes([root]);
    NodesOfOne(root);
  }

  /** What is queued, and what is still to come: the current level is `done + rest`, and the queue
      holds `rest` and the children of `done`. */
  ghost predicate InLevels(root: Node, visited: seq<Node>, todo: seq<Node>, before: seq<Node>, done: seq<Node>,
                           rest: seq<Node>)
  {
    && visited == before + done && todo == rest + ChildrenOf(done)
    && LevelOrder(root) == before + Levels(done + rest)
  }

  lemma NextLevel(root: Node, visited: seq<Node>, todo: seq<Node>, before: seq<Node>, done: seq<Node>)
    requires InLevels(root, visited, todo, before, done, []) && done != []
    ensures InLevels(root, visited, todo, before + done, [], ChildrenOf(done))
  {
    assert done + [] == done && [] + ChildrenOf(done) == ChildrenOf(done) && visited + [] == visited;
    Append3(before, done, Levels(ChildrenOf(done)));
    assert ChildrenOf(done) + ChildrenOf([]) == ChildrenOf(done);
  }

  lemma NextNode(root: Node, visited: seq<Node>, todo: seq<Node>, before: seq<Node>, done: seq<Node>, rest: seq<Node>)
    requires InLevels(root, visited, todo, before, done, rest) && rest != []
    ensures todo[0] == rest[0]
    ensures InLevels(root, visited + [todo[0]], todo[1..] + Children(todo[0]), before, done + [rest[0]], rest[1..])
  {
    var n := rest[0];
    ChildrenOfOneMore(done, n);
    assert todo[1..] == rest[1..] + ChildrenOf(done);
    Append3(rest[1..], ChildrenOf(done), Children(n));
    Append3(before, done, [n]);
    assert rest == [n] + rest[1..];
    Append3(done, [n], rest[1..]);
  }

  lemma LastLevel(root: Node, visited: seq<Node>, before: seq<Node>, done: seq<Node>, rest: seq<Node>)
    requires InLevels(root, visited, [], before, done, rest)
    ensures visited == LevelOrder(root)
  {
    assert rest == [] && ChildrenOf(done) == [];
    assert done + [] == done;
    assert Levels([]) == [] && Levels(done) == done;
  }

  /** `ast.walk`: a queue. It visits every node of the tree, each occurrence once, level by level. */
  method Walk(root: Node) returns (visited: seq<Node>)
    ensures visited == LevelOrder(root)
    ensures multiset(visited) == Nodes(root)
  {
    var todo := [root];
    visited := [];
    ghost var before, done, rest := [], [], [root];
    assert [] + [root] == [root] && [root] + ChildrenOf([]) == [root];
    while todo != []
      invariant InLevels(root, visited, todo, before, done, rest)
      decreases |NodesOf(todo)|
    {
      if rest == [] {
        NextLevel(root, visited, todo, before, done);
        before, done, rest := before + done, [], ChildrenOf(done);
      }
      NextNode(root, visited, todo, before, done, rest);
      QueueStep(todo);
      todo, visited := todo[1..] + Children(todo[0]), visited + [todo[0]];
      done, rest := done + [rest[0]], rest[1..];
    }
    LastLevel(root, visited, before, done, rest);
    LevelOrderIsNodes(root);
  }
}
