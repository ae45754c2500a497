/** The doctests of `calculate_cyclomatic_complexity`,
    `calculate_method_length` and `calculate_working_memory`, on trees
    written out by hand, with the `def` on any line `d` (line 2 in the
    doctests, whose source text starts with a newline). Each statement and
    test keeps its own node and line; a test or a returned expression is
    one `Other` leaf on its line, and the `arguments` record is
    `Unlocated`. */
module MetricExamples {
  import opened Wrappers
  import opened Syntax
  import opened Metrics

  function Leaf(line: nat): Node {
    Node(Other, line, [])
  }

  function NoArguments(): Node {
    Node(Unlocated, 0, [])
  }

  function Return(line: nat): Node {
    Node(Other, line, [Leaf(line)])
  }

  function Assignment(x: string, line: nat): Node {
    Node(Assign([NameTarget(x)]), line, [Leaf(line), Leaf(line)])
  }

  /** `if x > 10:` with its `return`, inside the outer `if`. */
  function NestedIf(d: nat): Node {
    Node(If, d + 2, [Leaf(d + 2), Return(d + 3)])
  }

  /** `elif x < 0:` with its `return` and the `else` branch's `return`. */
  function ElifBranch(d: nat): Node {
    Node(If, d + 5, [Leaf(d + 5), Return(d + 6), Return(d + 8)])
  }

  function OuterIf(d: nat): Node {
    Node(If, d + 1, [Leaf(d + 1), NestedIf(d), Return(d + 4), ElifBranch(d)])
  }

  /** `complex_func(x)`: an `if` holding a nested `if`, and an `elif` (an
      `If` in the `orelse`) with an `else`. */
  function ComplexFunc(d: nat): Node {
    Node(FunctionDef("complex_func", ["x"], [OuterIf(d)]), d, [NoArguments()])
  }

  /** Three `If` nodes: complexity 4. */
  lemma ComplexityDoctest(t: Node, d: nat)
    ensures Complexity(Some(t), ComplexFunc(d)) == 4
  {
    ComplexityByTree(t, ComplexFunc(d));
    ComplexFuncWeight(d);
  }

  lemma ComplexFuncWeight(d: nat)
    ensures TreeWeight(ComplexFunc(d)) == 3
  {
    var fn := ComplexFunc(d);
    OuterWeight(d);
    assert fn.kind.body == [OuterIf(d)] + [] && fn.children == [NoArguments()] + [];
    TreeWeightCons(OuterIf(d), []);
    TreeWeightCons(NoArguments(), []);
  }

  lemma OuterWeight(d: nat)
    ensures TreeWeight(OuterIf(d)) == 3
  {
    var a, b, c, e := Leaf(d + 1), NestedIf(d), Return(d + 4), ElifBranch(d);
    assert OuterIf(d).children == [a] + ([b] + ([c] + ([e] + [])));
    TreeWeightCons(a, [b] + ([c] + ([e] + [])));
    TreeWeightCons(b, [c] + ([e] + []));
    TreeWeightCons(c, [e] + []);
    TreeWeightCons(e, []);
    LeafWeight(d + 1);
    NestedWeight(d);
    ReturnWeight(d + 4);
    ElifWeight(d);
  }

  lemma NestedWeight(d: nat)
    ensures TreeWeight(NestedIf(d)) == 1
  {
    assert NestedIf(d).children == [Leaf(d + 2)] + ([Return(d + 3)] + []);
    TreeWeightCons(Leaf(d + 2), [Return(d + 3)] + []);
    TreeWeightCons(Return(d + 3), []);
    LeafWeight(d + 2);
    ReturnWeight(d + 3);
  }

  lemma ElifWeight(d: nat)
    ensures TreeWeight(ElifBranch(d)) == 1
  {
    var a, b, c := Leaf(d + 5), Return(d + 6), Return(d + 8);
    assert ElifBranch(d).children == [a] + ([b] + ([c] + []));
    TreeWeightCons(a, [b] + ([c] + []));
    TreeWeightCons(b, [c] + []);
    TreeWeightCons(c, []);
    LeafWeight(d + 5);
    ReturnWeight(d + 6);
    ReturnWeight(d + 8);
  }

  lemma ReturnWeight(line: nat)
    ensures TreeWeight(Return(line)) == 0
  {
    assert Return(line).children == [Leaf(line)] + [];
    TreeWeightCons(Leaf(line), []);
    LeafWeight(line);
  }

  lemma LeafWeight(line: nat)
    ensures TreeWeight(Leaf(line)) == 0
  {
  }

  lemma TreeWeightCons(n: Node, rest: seq<Node>)
    ensures TreeWeightAll([n] + rest) == TreeWeight(n) + TreeWeightAll(rest)
  {
    assert ([n] + rest)[1..] == rest;
  }

  /** `multi_line_func()`: three assignments and a `return` on the four
      lines after the `def`. */
  function MultiLineFunc(d: nat): Node {
    Node(FunctionDef("multi_line_func", [],
                     [Assignment("a", d + 1), Assignment("b", d + 2), Assignment("c", d + 3), Return(d + 4)]),
         d, [NoArguments()])
  }

  /** From the `def` line to the `return` line: 5. */
  lemma MethodLengthDoctest(d: nat)
    ensures MethodLength(MultiLineFunc(d)) == 5
  {
    var fn := MultiLineFunc(d);
    var r := MethodLength(fn);
    var last := Return(d + 4);
    assert LastStatement(fn) == last;
    ReturnWalk(d + 4);
    assert last in Walk(last) && Located(last);
    assert forall m :: m in Walk(last) ==> m.line == d + 4;
  }

  /** `memory_heavy_func()`: four assignments and a `return`, no
      parameters; the names are `a`, `b`, `c` and `d` in the doctest. */
  function MemoryHeavyFunc(d: nat, x1: string, x2: string, x3: string, x4: string): Node {
    Node(FunctionDef("memory_heavy_func", [],
                     [Assignment(x1, d + 1), Assignment(x2, d + 2), Assignment(x3, d + 3), Assignment(x4, d + 4),
                      Return(d + 5)]),
         d, [NoArguments()])
  }

  /** Four distinct assigned names: working memory 4. */
  lemma WorkingMemoryDoctest(d: nat, x1: string, x2: string, x3: string, x4: string)
    requires x1 != x2 && x1 != x3 && x1 != x4 && x2 != x3 && x2 != x4 && x3 != x4
    ensures WorkingMemory(MemoryHeavyFunc(d, x1, x2, x3, x4)) == 4
  {
    HeavyVariables(d, x1, x2, x3, x4);
    FourNames(x1, x2, x3, x4);
  }

  lemma FourNames(x1: string, x2: string, x3: string, x4: string)
    requires x1 != x2 && x1 != x3 && x1 != x4 && x2 != x3 && x2 != x4 && x3 != x4
    ensures |{x1, x2, x3, x4}| == 4
  {
    assert {x1, x2, x3, x4} == {x1, x2, x3} + {x4};
    assert {x1, x2, x3} == {x1, x2} + {x3};
    assert {x1, x2} == {x1} + {x2};
  }

  lemma HeavyVariables(d: nat, x1: string, x2: string, x3: string, x4: string)
    ensures Variables(MemoryHeavyFunc(d, x1, x2, x3, x4)) == {x1, x2, x3, x4}
  {
    var vs := Variables(MemoryHeavyFunc(d, x1, x2, x3, x4));
    HeavyVariablesWithin(d, x1, x2, x3, x4);
    HeavyVariablesContain(d, x1, x2, x3, x4);
    assert vs <= {x1, x2, x3, x4} && {x1, x2, x3, x4} <= vs;
  }

  lemma HeavyVariablesWithin(d: nat, x1: string, x2: string, x3: string, x4: string)
    ensures Variables(MemoryHeavyFunc(d, x1, x2, x3, x4)) <= {x1, x2, x3, x4}
  {
    HeavyBindings(d, x1, x2, x3, x4);
  }

  lemma HeavyVariablesContain(d: nat, x1: string, x2: string, x3: string, x4: string)
    ensures {x1, x2, x3, x4} <= Variables(MemoryHeavyFunc(d, x1, x2, x3, x4))
  {
    HeavyWalk(d, x1, x2, x3, x4);
    AssignmentBinds(x1, d + 1);
    AssignmentBinds(x2, d + 2);
    AssignmentBinds(x3, d + 3);
    AssignmentBinds(x4, d + 4);
  }

  /** Every node of the walk binds only names among the four assigned. */
  lemma HeavyBindings(d: nat, x1: string, x2: string, x3: string, x4: string)
    ensures BindsWithin(Walk(MemoryHeavyFunc(d, x1, x2, x3, x4)), {x1, x2, x3, x4})
  {
    var fn, names := MemoryHeavyFunc(d, x1, x2, x3, x4), {x1, x2, x3, x4};
    var w1, w2, w3, w4 := Walk(Assignment(x1, d + 1)), Walk(Assignment(x2, d + 2)),
                          Walk(Assignment(x3, d + 3)), Walk(Assignment(x4, d + 4));
    var wr := Walk(Return(d + 5));
    HeavyWalk(d, x1, x2, x3, x4);
    AssignmentWithin(x1, d + 1, names);
    AssignmentWithin(x2, d + 2, names);
    AssignmentWithin(x3, d + 3, names);
    AssignmentWithin(x4, d + 4, names);
    ReturnWithin(d + 5, names);
    BindsWithinAppend(w1, w2, names);
    BindsWithinAppend(w1 + w2, w3, names);
    BindsWithinAppend(w1 + w2 + w3, w4, names);
    BindsWithinAppend(w1 + w2 + w3 + w4, wr, names);
    assert BindsWithin([fn], names) && BindsWithin([NoArguments()], names);
    BindsWithinAppend([fn], w1 + w2 + w3 + w4 + wr, names);
    BindsWithinAppend([fn] + (w1 + w2 + w3 + w4 + wr), [NoArguments()], names);
  }

  /** No node of `w` binds a name outside `names`. */
  predicate BindsWithin(w: seq<Node>, names: set<string>) {
    forall m :: m in w ==> Bound(m) <= names
  }

  lemma BindsWithinAppend(a: seq<Node>, b: seq<Node>, names: set<string>)
    requires BindsWithin(a, names) && BindsWithin(b, names)
    ensures BindsWithin(a + b, names)
  {
  }

  lemma AssignmentWithin(x: string, line: nat, names: set<string>)
    requires x in names
    ensures BindsWithin(Walk(Assignment(x, line)), names)
  {
    AssignmentWalk(x, line);
  }

  lemma ReturnWithin(line: nat, names: set<string>)
    ensures BindsWithin(Walk(Return(line)), names)
  {
    ReturnWalk(line);
  }

  lemma HeavyWalk(d: nat, x1: string, x2: string, x3: string, x4: string)
    ensures var fn := MemoryHeavyFunc(d, x1, x2, x3, x4);
            Walk(fn) == [fn] + (Walk(Assignment(x1, d + 1)) + Walk(Assignment(x2, d + 2))
                                + Walk(Assignment(x3, d + 3)) + Walk(Assignment(x4, d + 4)) + Walk(Return(d + 5)))
                        + [NoArguments()]
  {
    var fn := MemoryHeavyFunc(d, x1, x2, x3, x4);
    WalkSplit(fn);
    WalkAllFive(Assignment(x1, d + 1), Assignment(x2, d + 2), Assignment(x3, d + 3), Assignment(x4, d + 4),
                Return(d + 5));
    NoArgumentsWalk();
  }

  lemma NoArgumentsWalk()
    ensures WalkAll([NoArguments()]) == [NoArguments()]
  {
    assert [NoArguments()] == [NoArguments()] + [];
    WalkAllCons(NoArguments(), []);
  }

  lemma WalkAllFive(a: Node, b: Node, c: Node, e: Node, f: Node)
    ensures WalkAll([a, b, c, e, f]) == Walk(a) + Walk(b) + Walk(c) + Walk(e) + Walk(f)
  {
    assert [a, b, c, e, f] == [a] + ([b] + ([c] + ([e] + ([f] + []))));
    WalkAllCons(a, [b] + ([c] + ([e] + ([f] + []))));
    WalkAllCons(b, [c] + ([e] + ([f] + [])));
    WalkAllCons(c, [e] + ([f] + []));
    WalkAllCons(e, [f] + []);
    WalkAllCons(f, []);
  }

  lemma ReturnWalk(line: nat)
    ensures Walk(Return(line)) == [Return(line), Leaf(line)]
  {
    WalkSplit(Return(line));
    WalkAllCons(Leaf(line), []);
  }

  lemma WalkAllCons(n: Node, rest: seq<Node>)
    ensures WalkAll([n] + rest) == Walk(n) + WalkAll(rest)
  {
    assert ([n] + rest)[1..] == rest;
  }

  /** An assignment to one name binds that name. */
  lemma AssignmentBinds(x: string, line: nat)
    ensures Assignment(x, line) in Walk(Assignment(x, line))
    ensures x in Bound(Assignment(x, line))
  {
    AssignmentWalk(x, line);
  }

  lemma AssignmentWalk(x: string, line: nat)
    ensures Walk(Assignment(x, line)) == [Assignment(x, line), Leaf(line), Leaf(line)]
    ensures Bound(Assignment(x, line)) == {x}
  {
    var a := Assignment(x, line);
    WalkSplit(a);
    WalkAllCons(Leaf(line), [Leaf(line)]);
    WalkAllCons(Leaf(line), []);
    assert WalkAll(Body(a)) == [];
    assert a.children == [Leaf(line)] + [Leaf(line)];
    NameTargetBinds(x);
  }

  lemma NameTargetBinds(x: string)
    ensures TargetNames([NameTarget(x)]) == {x}
  {
    var ts := [NameTarget(x)];
    assert ts[0].NameTarget? && ts[0].id == x;
    assert x in TargetNames(ts);
    forall y | y in TargetNames(ts)
      ensures y == x
    {
      var i :| 0 <= i < |ts| && ts[i].NameTarget? && ts[i].id == y;
    }
  }
}
