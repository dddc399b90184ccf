/**
 * Dispatch scenarios of tests/test_basic.py, over a small host type system:
 * `object` with two unrelated subclasses `int` and `str`.
 */
module DispatchExamples {
  import opened Values
  import opened TypeSystems
  import opened Signatures
  import opened Resolver
  import opened ResolverLemmas
  import opened DispatchTrie
  import opened TrieLemmas
  import opened Dispatch

  datatype PyClass = Object | Int | Str
  datatype HostValue = AnInt(i: int) | AString(s: string)

  function ClassOf(v: HostValue): PyClass {
    if v.AnInt? then Int else Str
  }

  /** `issubclass` on the three classes. */
  predicate SubclassOf(a: PyClass, b: PyClass) {
    a == b || b == Object
  }

  /** The host type system: annotations are the classes themselves. */
  function Host(): TypeSystem<PyClass, PyClass, HostValue> {
    TypeSystem(
      (v: HostValue, t: PyClass) => SubclassOf(ClassOf(v), t),
      (a: PyClass, b: PyClass) => SubclassOf(a, b),
      ClassOf,
      (a: PyClass) => a,
      Object,
      Object)
  }

  /** `sum_ints(13, 27)` reaches all four definitions; `(x: int, y: int)` is
    * below every other in each parameter and is chosen. */
  lemma SumIntsBothInts(f0: Func, f1: Func, f2: Func, f3: Func)
    ensures var cands := [Leaf(f0, [Object, Object]), Leaf(f1, [Int, Object]), Leaf(f2, [Object, Int]), Leaf(f3, [Int, Int])];
      Resolve(Host(), cands) == Chosen(cands[3])
  {
    var cands := [Leaf(f0, [Object, Object]), Leaf(f1, [Int, Object]), Leaf(f2, [Object, Int]), Leaf(f3, [Int, Int])];
    assert StrictlyBelow(Host(), Int, Object);
    assert Dominates(Host(), cands, 3);
    MostSpecificWins(Host(), cands, 3);
  }

  /** `sum_ints(27, "b")` reaches `(x, y)` and `(x: int, y)`; the latter is chosen. */
  lemma SumIntsFirstInt(f0: Func, f1: Func)
    ensures var cands := [Leaf(f0, [Object, Object]), Leaf(f1, [Int, Object])];
      Resolve(Host(), cands) == Chosen(cands[1])
  {
    var cands := [Leaf(f0, [Object, Object]), Leaf(f1, [Int, Object])];
    assert StrictlyBelow(Host(), Int, Object);
    assert Dominates(Host(), cands, 1);
    MostSpecificWins(Host(), cands, 1);
  }

  /** `g(0, 1, 0, "a")` with `g(a, i: int, b, s: object)` and
    * `g(a, i: object, b, s: str)`: each is more specific in one parameter, so
    * equal priorities leave the call ambiguous (the DispatchError), and a
    * higher priority settles it. */
  lemma CrossedDefinitions(g0: Func, g1: Func)
    ensures var cands := [Leaf(g0, [Object, Int, Object, Object]), Leaf(g1, [Object, Object, Object, Str])];
      && (g0.priority == g1.priority ==> Resolve(Host(), cands) == Ambiguous)
      && (g0.priority > g1.priority ==> Resolve(Host(), cands) == Chosen(cands[0]))
  {
    var cands := [Leaf(g0, [Object, Int, Object, Object]), Leaf(g1, [Object, Object, Object, Str])];
    assert Width(cands) == 4;
    CrossedCandidates(Host(), cands, 1, 3);
  }

  /** One parameter annotated with c and no default has the one signature `(c,)`. */
  lemma OneParam(c: PyClass)
    ensures SignaturesOf(Host(), [Param(Some(c), false)]) == [[c]]
  {
    var ps := [Param(Some(c), false)];
    assert FullSignature(Host(), ps) == [c];
    assert DefaultPrefixes([c], ps, 1) == [];
  }

  lemma InstallFree(table: set<Leaf<PyClass>>, f: Func, sig: seq<PyClass>)
    requires !Taken(table, sig)
    ensures Install(table, f, [sig]) == (table + {Leaf(f, sig)}, None)
  {
    assert [sig][1..] == [];
  }

  lemma InstallClash(table: set<Leaf<PyClass>>, f: Func, sig: seq<PyClass>)
    requires Taken(table, sig)
    ensures Install(table, f, [sig]) == (table, Some(sig))
  {
  }

  /** The registrations of test_basic under the name f: `f(i: int)`,
    * `f(s: str)`, then a second `f(x: int)` that raises the ValueError for
    * signature `(int,)`. */
  method BasicDefinitions() returns (tree: TypeTree<PyClass, PyClass, HostValue>, dup: Definition<PyClass>)
    ensures fresh(tree) && tree.Valid() && tree.ts == Host() && tree.cache == map[]
    ensures Registered(tree.nodes) == {Leaf(Func(0, 0), [Int]), Leaf(Func(1, 0), [Str])}
    ensures dup == MatchesExisting([Int])
  {
    tree := new TypeTree("f", Host());
    OneParam(Int);
    OneParam(Str);
    var l0, l1 := Leaf(Func(0, 0), [Int]), Leaf(Func(1, 0), [Str]);
    var none: set<Leaf<PyClass>> := {};
    InstallFree(none, Func(0, 0), [Int]);
    var d := tree.DefineFunction(Func(0, 0), [Param(Some(Int), false)]);
    InstallFree({l0}, Func(1, 0), [Str]);
    d := tree.DefineFunction(Func(1, 0), [Param(Some(Str), false)]);
    assert l0 in {l0, l1};
    InstallClash({l0, l1}, Func(2, 0), [Int]);
    dup := tree.DefineFunction(Func(2, 0), [Param(Some(Int), false)]);
  }

  /** test_basic: after those definitions `f(1)` and `f("1")` pick their
    * definitions, and a tree holding only `g(i: int)` finds nothing for
    * `g("1")`. */
  method BasicScenario() returns (dup: Definition<PyClass>, one: Lookup<PyClass>, word: Lookup<PyClass>, miss: Lookup<PyClass>)
    ensures dup == MatchesExisting([Int])
    ensures one == Found(Func(0, 0)) && word == Found(Func(1, 0))
    ensures miss == NotFound
  {
    var tree;
    tree, dup := BasicDefinitions();
    ArgTypesOne(AnInt(1));
    ArgTypesOne(AString("1"));
    one := BasicLookup(tree, AnInt(1));
    word := BasicLookup(tree, AString("1"));
    miss := MissScenario();
  }

  /** A tree holding only `g(i: int)` finds nothing for `g("1")`. */
  method MissScenario() returns (miss: Lookup<PyClass>)
    ensures miss == NotFound
  {
    var g := new TypeTree("g", Host());
    OneParam(Int);
    var none: set<Leaf<PyClass>> := {};
    InstallFree(none, Func(3, 0), [Int]);
    var d := g.DefineFunction(Func(3, 0), [Param(Some(Int), false)]);
    NoneAdmits(Registered(g.nodes), AString("1"));
    DispatchOutcomes(Host(), g.nodes, g.paths, [AString("1")]);
    miss := g.FindFunctionCached([AString("1")]);
  }

  /** A string is not an instance of `int`. */
  lemma NoneAdmits(table: set<Leaf<PyClass>>, a: HostValue)
    requires table == {Leaf(Func(3, 0), [Int])} && a.AString?
    ensures forall l | l in table :: !Admits(Host(), [a], 1, l.sig)
  {
    forall l | l in table ensures !Admits(Host(), [a], 1, l.sig) {
      assert l.sig == [Int] && [a][0] == a;
      assert !Host().isInstance(a, Int);
    }
  }

  /** A one-argument call on the tree of f finds the one definition whose type
    * the argument is an instance of. */
  method BasicLookup(tree: TypeTree<PyClass, PyClass, HostValue>, a: HostValue) returns (r: Lookup<PyClass>)
    requires tree.Valid() && tree.ts == Host()
    requires Registered(tree.nodes) == {Leaf(Func(0, 0), [Int]), Leaf(Func(1, 0), [Str])}
    requires ArgTypes(Host(), [a]) !in tree.cache
    modifies tree
    ensures tree.Valid() && tree.ts == Host() && Registered(tree.nodes) == old(Registered(tree.nodes))
    ensures r == Found(if a.AnInt? then Func(0, 0) else Func(1, 0))
    ensures tree.cache == old(tree.cache)[ArgTypes(Host(), [a]) := r.f]
  {
    r := tree.FindFunctionCached([a]);
    OnlyMatch(Registered(tree.nodes), a);
    DispatchOutcomes(Host(), tree.nodes, tree.paths, [a]);
  }

  lemma ArgTypesOne(a: HostValue)
    ensures ArgTypes(Host(), [a]) == [ClassOf(a)]
  {
    assert ArgTypes(Host(), [a])[0] == ClassOf(a);
  }

  /** Of `(int,)` and `(str,)`, exactly the signature of the argument's class admits it. */
  lemma OnlyMatch(table: set<Leaf<PyClass>>, a: HostValue)
    requires table == {Leaf(Func(0, 0), [Int]), Leaf(Func(1, 0), [Str])}
    ensures var pick := if a.AnInt? then Leaf(Func(0, 0), [Int]) else Leaf(Func(1, 0), [Str]);
      && pick in table && Admits(Host(), [a], 1, pick.sig)
      && forall l2 | l2 in table && Admits(Host(), [a], 1, l2.sig) :: l2 == pick
  {
    forall l2 | l2 in table && Admits(Host(), [a], 1, l2.sig)
      ensures l2 == (if a.AnInt? then Leaf(Func(0, 0), [Int]) else Leaf(Func(1, 0), [Str]))
    {
      var l0, l1 := Leaf(Func(0, 0), [Int]), Leaf(Func(1, 0), [Str]);
      assert l2 == l0 || l2 == l1;
      assert Host().isInstance(a, l2.sig[0]);
      if l2 == l0 {
        assert a.AnInt?;
      } else {
        assert !a.AnInt?;
      }
    }
  }
}
