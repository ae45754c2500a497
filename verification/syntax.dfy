/** The part of Python's abstract syntax tree that the quality metrics look at.
    Every node has a kind, a source line and its child nodes; a function
    definition keeps its body statements in its kind, because method length
    needs the last of them. `Walk` flattens a subtree the way `ast.walk` does,
    node itself included, nested function definitions included. */
module Syntax {

  /** A `BoolOp` built by the parser always combines at least two values. */
  type Operands = n: nat | n >= 2 witness 2

  /** An assignment or loop target: a plain `Name`, or anything else
      (tuple, attribute, subscript, starred) that the metrics ignore. */
  datatype Target = NameTarget(id: string) | OtherTarget

  datatype Kind =
    | FunctionDef(name: string, params: seq<string>, body: seq<Node>)
    | If
    | While
    | For(target: Target)
    | IfExp
    | Assert
    | Try
    | ExceptHandler
    | BoolOp(operands: Operands)
    | Assign(targets: seq<Target>)
    | AugAssign(target: Target)
      /** Every other node that has a `lineno` (calls, returns, names,
          async definitions and loops, ...). */
    | Other
      /** Nodes without a `lineno`: operators, expression contexts,
          the `arguments` record. */
    | Unlocated

  /** `line` is ignored for `Unlocated` nodes. Children of a function
      definition other than its body (arguments, decorators, annotations)
      are in `children`. */
  datatype Node = Node(kind: Kind, line: nat, children: seq<Node>)

  predicate Located(n: Node) {
    !n.kind.Unlocated?
  }

  predicate IsFunctionDef(n: Node) {
    n.kind.FunctionDef?
  }

  /** Body statements of a function definition, nothing for other nodes. */
  function Body(n: Node): seq<Node> {
    if n.kind.FunctionDef? then n.kind.body else []
  }

  /** `ast.walk(n)` as a preorder list: `n`, then the walk of each body
      statement, then the walk of each other child. */
  function Walk(n: Node): (r: seq<Node>)
    ensures |r| >= 1 && r[0] == n
    decreases n, 1
  {
    [n] + (if n.kind.FunctionDef? then WalkAll(n.kind.body) else []) + WalkAll(n.children)
  }

  function WalkAll(ns: seq<Node>): seq<Node>
    decreases ns, 0
  {
    if ns == [] then [] else Walk(ns[0]) + WalkAll(ns[1..])
  }

  lemma {:induction false} WalkAllAppend(a: seq<Node>, b: seq<Node>)
    ensures WalkAll(a + b) == WalkAll(a) + WalkAll(b)
  {
    if a == [] {
      assert a + b == b;
    } else {
      WalkAllAppend(a[1..], b);
      assert (a + b)[1..] == a[1..] + b;
      assert (a + b)[0] == a[0];
    }
  }

  /** The walk visits the node, then its body statements and children
      (all their subtrees, in order). */
  lemma WalkUnfold(n: Node)
    ensures Walk(n) == [n] + WalkAll(Body(n) + n.children)
  {
    WalkAllAppend(Body(n), n.children);
  }

  /** The walk of any node met during a walk is a contiguous run of the
      enclosing walk, so every descendant's own subtree is visited too. */
  lemma {:induction false} WalkContains(n: Node, m: Node) returns (a: seq<Node>, b: seq<Node>)
    requires m in Walk(n)
    ensures Walk(n) == a + Walk(m) + b
    decreases n, 1
  {
    if m == n {
      return [], [];
    }
    var rest := WalkAll(Body(n));
    var tail := WalkAll(n.children);
    WalkSplit(n);
    if m in rest {
      assert n.kind.FunctionDef?;
      var a', b' := WalkAllContains(n.kind.body, m);
      a, b := [n] + a', b' + tail;
      Regroup([n], a', Walk(m), b', tail);
    } else {
      assert m in tail;
      var a', b' := WalkAllContains(n.children, m);
      a, b := [n] + rest + a', b';
      Regroup([n] + rest, a', Walk(m), b', []);
    }
  }

  lemma WalkSplit(n: Node)
    ensures Walk(n) == [n] + WalkAll(Body(n)) + WalkAll(n.children)
  {
  }

  lemma Regroup<T>(p: seq<T>, a: seq<T>, w: seq<T>, b: seq<T>, s: seq<T>)
    ensures p + (a + w + b) + s == (p + a) + w + (b + s)
  {
  }

  lemma {:induction false} WalkAllContains(ns: seq<Node>, m: Node) returns (a: seq<Node>, b: seq<Node>)
    requires m in WalkAll(ns)
    ensures WalkAll(ns) == a + Walk(m) + b
    decreases ns, 0
  {
    assert ns != [];
    assert WalkAll(ns) == Walk(ns[0]) + WalkAll(ns[1..]);
    if m in Walk(ns[0]) {
      var a', b' := WalkContains(ns[0], m);
      a, b := a', b' + WalkAll(ns[1..]);
    } else {
      var a', b' := WalkAllContains(ns[1..], m);
      a, b := Walk(ns[0]) + a', b';
    }
  }

  /** Descendants of descendants are descendants. */
  lemma WalkTransitive(n: Node, m: Node, k: Node)
    requires m in Walk(n) && k in Walk(m)
    ensures k in Walk(n)
  {
    var a, b := WalkContains(n, m);
    assert multiset(Walk(m)) <= multiset(Walk(n));
  }

  /** Every body statement and child is visited by the walk. */
  lemma ChildrenWalked(n: Node, c: Node)
    requires c in Body(n) + n.children
    ensures c in Walk(n)
  {
    WalkUnfold(n);
    var i :| 0 <= i < |Body(n) + n.children| && (Body(n) + n.children)[i] == c;
    WalkAllMember(Body(n) + n.children, i);
  }

  lemma {:induction false} WalkAllMember(ns: seq<Node>, i: nat)
    requires i < |ns|
    ensures ns[i] in WalkAll(ns)
  {
    if i > 0 {
      WalkAllMember(ns[1..], i - 1);
    }
  }
}
