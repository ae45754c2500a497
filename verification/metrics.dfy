/** The three raw metrics of `ComplexityMetrics` in `src/code_quality.py`:
    cyclomatic complexity, method length and working memory. Each is a fold
    over `Walk`, so every node of the function's subtree counts, including the
    bodies of nested function definitions. */
module Metrics {
  import opened Wrappers
  import opened Syntax

  // ---------------------------------------------------------------------
  // Cyclomatic complexity

  /** What one node adds to the complexity: one for each branching
      construct, one per extra operand of a short-circuit `and`/`or`. */
  function Weight(n: Node): nat {
    match n.kind
    case If => 1
    case While => 1
    case For(_) => 1
    case IfExp => 1
    case Assert => 1
    case Try => 1
    case ExceptHandler => 1
    case BoolOp(k) => k - 1
    case _ => 0
  }

  /** The node kinds that add to the complexity. */
  predicate IsDecision(n: Node) {
    n.kind.If? || n.kind.While? || n.kind.For? || n.kind.IfExp? || n.kind.Assert?
    || n.kind.Try? || n.kind.ExceptHandler? || n.kind.BoolOp?
  }

  lemma WeightPositive(n: Node)
    ensures Weight(n) > 0 <==> IsDecision(n)
  {
  }

  function WeightSum(s: seq<Node>): nat {
    if s == [] then 0 else Weight(s[0]) + WeightSum(s[1..])
  }

  /** The sum is zero exactly when no node is a decision point. */
  lemma {:induction false} WeightSumZero(s: seq<Node>)
    ensures WeightSum(s) == 0 <==> forall i :: 0 <= i < |s| ==> !IsDecision(s[i])
  {
    if s != [] {
      WeightPositive(s[0]);
      WeightSumZero(s[1..]);
      assert forall i :: 1 <= i < |s| ==> s[i] == s[1..][i - 1];
    }
  }

  lemma {:induction false} WeightSumAppend(a: seq<Node>, b: seq<Node>)
    ensures WeightSum(a + b) == WeightSum(a) + WeightSum(b)
  {
    if a == [] {
      assert a + b == b;
    } else {
      WeightSumAppend(a[1..], b);
      assert (a + b)[1..] == a[1..] + b;
      assert (a + b)[0] == a[0];
    }
  }

  /** `calculate_cyclomatic_complexity`: 0 when the file did not parse,
      otherwise one plus the weight of every node in the walk. */
  function Complexity(tree: Option<Node>, fn: Node): (r: nat)
    ensures tree.None? ==> r == 0
    ensures tree.Some? ==> r >= 1
    ensures tree.Some? ==> (r == 1 <==> forall m :: m in Walk(fn) ==> !IsDecision(m))
  {
    if tree.None? then 0
    else
      WeightSumZero(Walk(fn));
      1 + WeightSum(Walk(fn))
  }

  /** Reference definition by structural recursion over the tree: a node's
      weight plus the weights of its body statements and children. */
  function TreeWeight(n: Node): nat
    decreases n, 1
  {
    Weight(n) + (if n.kind.FunctionDef? then TreeWeightAll(n.kind.body) else 0) + TreeWeightAll(n.children)
  }

  function TreeWeightAll(ns: seq<Node>): nat
    decreases ns, 0
  {
    if ns == [] then 0 else TreeWeight(ns[0]) + TreeWeightAll(ns[1..])
  }

  lemma {:induction false} WeightSumWalk(n: Node)
    ensures WeightSum(Walk(n)) == TreeWeight(n)
    decreases n, 1
  {
    var rest := WalkAll(Body(n));
    WeightSumAppend([n] + rest, WalkAll(n.children));
    WeightSumAppend([n], rest);
    WeightSumWalkAll(n.children);
    if n.kind.FunctionDef? {
      WeightSumWalkAll(n.kind.body);
    }
  }

  lemma {:induction false} WeightSumWalkAll(ns: seq<Node>)
    ensures WeightSum(WalkAll(ns)) == TreeWeightAll(ns)
    decreases ns, 0
  {
    if ns != [] {
      WeightSumAppend(Walk(ns[0]), WalkAll(ns[1..]));
      WeightSumWalk(ns[0]);
      WeightSumWalkAll(ns[1..]);
    }
  }

  /** The complexity of a parsed function is one plus the structural count
      of its decision points. */
  lemma ComplexityByTree(t: Node, fn: Node)
    ensures Complexity(Some(t), fn) == 1 + TreeWeight(fn)
  {
    WeightSumWalk(fn);
  }

  /** The sum does not depend on the order of the walk (`ast.walk` is
      breadth-first; this model walks in preorder). */
  lemma {:induction false} WeightSumPermutation(s: seq<Node>, t: seq<Node>)
    requires multiset(s) == multiset(t)
    ensures WeightSum(s) == WeightSum(t)
  {
    if s == [] {
      assert |t| == |multiset(t)| == 0;
    } else {
      var k := MatchFirst(s, t);
      WeightSumRemoveAt(t, k);
      WeightSumPermutation(s[1..], t[..k] + t[k + 1..]);
    }
  }

  /** Where the first element of `s` sits in a permutation `t` of it, and
      what is left of both once it is taken out. */
  lemma MatchFirst<T>(s: seq<T>, t: seq<T>) returns (k: nat)
    requires s != [] && multiset(s) == multiset(t)
    ensures k < |t| && t[k] == s[0]
    ensures multiset(s[1..]) == multiset(t[..k] + t[k + 1..])
  {
    k := Locate(s[0], t);
    MultisetRemove(s, 0);
    MultisetRemove(t, k);
    assert s[..0] + s[1..] == s[1..];
  }

  lemma Locate<T>(x: T, t: seq<T>) returns (k: nat)
    requires x in multiset(t)
    ensures k < |t| && t[k] == x
  {
    k :| 0 <= k < |t| && t[k] == x;
  }

  lemma MultisetRemove<T>(t: seq<T>, k: nat)
    requires k < |t|
    ensures multiset(t[..k] + t[k + 1..]) == multiset(t) - multiset{t[k]}
  {
    var u, w := t[..k], t[k + 1..];
    assert t == u + [t[k]] + w;
    assert multiset(t) == multiset(u) + multiset{t[k]} + multiset(w);
  }

  lemma WeightSumRemoveAt(t: seq<Node>, k: nat)
    requires k < |t|
    ensures WeightSum(t) == Weight(t[k]) + WeightSum(t[..k] + t[k + 1..])
  {
    var u, w := t[..k], t[k + 1..];
    SplitAt(t, k);
    WeightSumAppend(u + [t[k]], w);
    WeightSumAppend(u, [t[k]]);
    WeightSumAppend(u, w);
    assert WeightSum([t[k]]) == Weight(t[k]);
  }

  lemma SplitAt<T>(t: seq<T>, k: nat)
    requires k < |t|
    ensures t == t[..k] + [t[k]] + t[k + 1..]
  {
  }

  /** Traversal is not scoped: a nested function's decision points also
      count for every enclosing function. */
  lemma NestedComplexity(t: Node, fn: Node, inner: Node)
    requires inner in Walk(fn)
    ensures Complexity(Some(t), inner) <= Complexity(Some(t), fn)
  {
    var a, b := WalkContains(fn, inner);
    WeightSumAppend(a + Walk(inner), b);
    WeightSumAppend(a, Walk(inner));
  }

  // ---------------------------------------------------------------------
  // Method length

  /** The largest line among `start` and the located nodes of `s`. */
  function EndLine(start: nat, s: seq<Node>): (r: nat)
    ensures r >= start
    ensures forall i :: 0 <= i < |s| && Located(s[i]) ==> s[i].line <= r
    ensures r == start || exists i :: 0 <= i < |s| && Located(s[i]) && s[i].line == r
  {
    if s == [] then start
    else
      var rest := EndLine(start, s[1..]);
      if Located(s[0]) && s[0].line > rest then s[0].line else rest
  }

  function LastStatement(fn: Node): Node
    requires IsFunctionDef(fn) && fn.kind.body != []
  {
    fn.kind.body[|fn.kind.body| - 1]
  }

  /** `calculate_method_length`: 0 for an empty body; otherwise the lines
      from the `def` line to the furthest line in the LAST body statement's
      subtree (earlier statements are never looked at). */
  function MethodLength(fn: Node): (r: nat)
    requires IsFunctionDef(fn)
    ensures fn.kind.body == [] ==> r == 0
    ensures fn.kind.body != [] ==> r >= 1
    ensures fn.kind.body != [] ==>
      forall m :: m in Walk(LastStatement(fn)) && Located(m) ==> m.line < fn.line + r
    ensures fn.kind.body != [] && r > 1 ==>
      exists m :: m in Walk(LastStatement(fn)) && Located(m) && m.line == fn.line + r - 1
  {
    if fn.kind.body == [] then 0
    else
      var w := Walk(LastStatement(fn));
      var end := EndLine(fn.line, w);
      assert forall m :: m in w && Located(m) ==> m.line <= end by {
        forall m | m in w && Located(m) ensures m.line <= end {
          var i :| 0 <= i < |w| && w[i] == m;
        }
      }
      end - fn.line + 1
  }

  /** Statements before the last one never change the method length. */
  lemma MethodLengthLastOnly(fn: Node, earlier: seq<Node>)
    requires IsFunctionDef(fn) && fn.kind.body != []
    ensures var fn' := fn.(kind := fn.kind.(body := earlier + fn.kind.body));
            MethodLength(fn') == MethodLength(fn)
  {
    var fn' := fn.(kind := fn.kind.(body := earlier + fn.kind.body));
    assert LastStatement(fn') == LastStatement(fn);
  }

  // ---------------------------------------------------------------------
  // Working memory

  /** The plain names among assignment or loop targets. */
  function TargetNames(ts: seq<Target>): set<string> {
    set i | 0 <= i < |ts| && ts[i].NameTarget? :: ts[i].id
  }

  /** Names a node binds: `Name` targets of `Assign`, `AugAssign` and `For`. */
  function Bound(n: Node): set<string> {
    match n.kind
    case Assign(ts) => TargetNames(ts)
    case AugAssign(t) => TargetNames([t])
    case For(t) => TargetNames([t])
    case _ => {}
  }

  function BoundIn(s: seq<Node>): (r: set<string>)
    ensures forall x :: x in r <==> exists i :: 0 <= i < |s| && x in Bound(s[i])
  {
    if s == [] then {}
    else
      var rest := BoundIn(s[1..]);
      assert forall x :: x in rest <==> exists i :: 1 <= i < |s| && x in Bound(s[i]) by {
        forall x | x in rest ensures exists i :: 1 <= i < |s| && x in Bound(s[i]) {
          var j :| 0 <= j < |s[1..]| && x in Bound(s[1..][j]);
          assert x in Bound(s[j + 1]);
        }
        forall x | (exists i :: 1 <= i < |s| && x in Bound(s[i])) ensures x in rest {
          var i :| 1 <= i < |s| && x in Bound(s[i]);
          assert x in Bound(s[1..][i - 1]);
        }
      }
      Bound(s[0]) + rest
  }

  function ParamSet(ps: seq<string>): set<string> {
    set i | 0 <= i < |ps| :: ps[i]
  }

  /** The variable set of `calculate_working_memory`: names bound anywhere in
      the function's subtree plus the function's own positional parameters. */
  function Variables(fn: Node): (r: set<string>)
    requires IsFunctionDef(fn)
    ensures forall x :: x in r <==>
      (x in fn.kind.params || exists m :: m in Walk(fn) && x in Bound(m))
  {
    var w := Walk(fn);
    var bound := BoundIn(w);
    assert forall x :: x in bound <==> exists m :: m in w && x in Bound(m) by {
      forall x | x in bound ensures exists m :: m in w && x in Bound(m) {
        var i :| 0 <= i < |w| && x in Bound(w[i]);
      }
      forall x | (exists m :: m in w && x in Bound(m)) ensures x in bound {
        var m :| m in w && x in Bound(m);
        var i :| 0 <= i < |w| && w[i] == m;
      }
    }
    bound + ParamSet(fn.kind.params)
  }

  /** `calculate_working_memory`: 0 for an empty body (parameters or not),
      otherwise the number of distinct variables. */
  function WorkingMemory(fn: Node): (r: nat)
    requires IsFunctionDef(fn)
    ensures fn.kind.body == [] ==> r == 0
    ensures fn.kind.body != [] ==> r == |Variables(fn)|
  {
    if fn.kind.body == [] then 0 else |Variables(fn)|
  }

  lemma {:induction false} DistinctCard(ps: seq<string>)
    requires forall i, j :: 0 <= i < j < |ps| ==> ps[i] != ps[j]
    ensures |ParamSet(ps)| == |ps|
  {
    if ps != [] {
      var last := |ps| - 1;
      DistinctCard(ps[..last]);
      assert ParamSet(ps) == ParamSet(ps[..last]) + {ps[last]} by {
        forall x | x in ParamSet(ps) ensures x in ParamSet(ps[..last]) + {ps[last]} {
          var i :| 0 <= i < |ps| && ps[i] == x;
          if i < last {
            assert ps[..last][i] == x;
          }
        }
      }
      assert ps[last] !in ParamSet(ps[..last]);
    }
  }

  /** Distinct parameters that are never assigned add to the distinct
      assigned names: two parameters and three other locals give 5. */
  lemma WorkingMemoryDisjoint(fn: Node)
    requires IsFunctionDef(fn) && fn.kind.body != []
    requires forall i, j :: 0 <= i < j < |fn.kind.params| ==> fn.kind.params[i] != fn.kind.params[j]
    requires forall p :: p in fn.kind.params ==> p !in BoundIn(Walk(fn))
    ensures WorkingMemory(fn) == |fn.kind.params| + |BoundIn(Walk(fn))|
  {
    DistinctCard(fn.kind.params);
    var ps := ParamSet(fn.kind.params);
    var b := BoundIn(Walk(fn));
    assert ps !! b;
    assert Variables(fn) == b + ps;
  }

  /** Duplicates collapse: the working memory never exceeds the parameters
      plus the distinct bound names, and never falls below the distinct
      parameters. */
  lemma WorkingMemoryBounds(fn: Node)
    requires IsFunctionDef(fn) && fn.kind.body != []
    ensures |ParamSet(fn.kind.params)| <= WorkingMemory(fn)
    ensures WorkingMemory(fn) <= |ParamSet(fn.kind.params)| + |BoundIn(Walk(fn))|
  {
    var ps := ParamSet(fn.kind.params);
    var b := BoundIn(Walk(fn));
    assert Variables(fn) == b + ps;
    UnionCard(ps, b);
  }

  lemma UnionCard(a: set<string>, b: set<string>)
    ensures |a| <= |b + a| <= |a| + |b|
  {
    var d := b - a;
    assert b + a == d + a;
    assert |d + a| == |d| + |a|;
    assert b == d + (b * a);
    assert |b| == |d| + |b * a|;
  }

  /** Traversal is not scoped: names bound inside a nested function count
      for every enclosing function. */
  lemma NestedBindingsCounted(fn: Node, inner: Node, x: string)
    requires IsFunctionDef(fn)
    requires inner in Walk(fn) && x in BoundIn(Walk(inner))
    ensures x in Variables(fn)
  {
    var w := Walk(inner);
    var i :| 0 <= i < |w| && x in Bound(w[i]);
    WalkTransitive(fn, inner, w[i]);
  }
}
