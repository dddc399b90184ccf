/**
 * The dispatch objects of runtype/dispatch.py: `TypeTree`, the trie of one
 * function name with its lookup cache, and `MultiDispatch`, the decorator that
 * keeps one tree per qualified name. The trie is held as the node sequence of
 * module DispatchTrie; every method here is proved against the specification
 * functions of that module.
 */
module Dispatch {
  import opened Values
  import opened TypeSystems
  import opened Signatures
  import opened Resolver
  import opened DispatchTrie
  import opened TrieLemmas
  import opened DefineLemmas

  /** `tuple(map(get_type, args))`: the key of the lookup cache. */
  function ArgTypes<A, T, V>(ts: TypeSystem<A, T, V>, args: seq<V>): seq<T> {
    seq(|args|, i requires 0 <= i < |args| => ts.getType(args[i]))
  }

  /** The functions registered in a table of leaves. */
  ghost function FuncsOf<T>(table: set<Leaf<T>>): set<Func> {
    set l | l in table :: l.f
  }

  lemma FuncsGrow<T>(small: set<Leaf<T>>, large: set<Leaf<T>>)
    requires small <= large
    ensures FuncsOf(small) <= FuncsOf(large)
  {
    forall g | g in FuncsOf(small)
      ensures g in FuncsOf(large)
    {
      var l :| l in small && l.f == g;
      assert l in large;
    }
  }

  /** `TypeNode.follow_arg` without subtype testing: the children whose edge
    * type the argument is an instance of, in insertion order. */
  method FollowArg<A, T, V>(ts: TypeSystem<A, T, V>, edges: seq<(T, nat)>, a: V) returns (children: seq<nat>)
    ensures children == Follow(ts, edges, a, |edges|)
  {
    children := [];
    for e := 0 to |edges|
      invariant children == Follow(ts, edges, a, e)
    {
      var (t, child) := edges[e];
      if ts.isInstance(a, t) {
        children := children + [child];
      }
    }
  }

  /** The outer loop of `find_function`: the nodes active after every argument. */
  method WalkArgs<A, T, V>(ts: TypeSystem<A, T, V>, nodes: seq<Node<T>>, args: seq<V>) returns (active: seq<nat>)
    ensures active == Reach(ts, nodes, args, |args|)
  {
    active := [0];
    for i := 0 to |args|
      invariant active == Reach(ts, nodes, args, i)
    {
      active := StepArg(ts, nodes, active, args[i]);
    }
  }

  /** One argument of `find_function`: the children every active node follows. */
  method StepArg<A, T, V>(ts: TypeSystem<A, T, V>, nodes: seq<Node<T>>, active: seq<nat>, a: V) returns (next: seq<nat>)
    ensures next == Step(ts, nodes, active, a, |active|)
  {
    next := [];
    for j := 0 to |active|
      invariant next == Step(ts, nodes, active, a, j)
    {
      var children := FollowArg(ts, EdgesOf(nodes, active[j]), a);
      next := next + children;
    }
  }

  /** `[node.func for node in nodes if node.func]` over the nodes reached. */
  method CollectFuncs<T>(nodes: seq<Node<T>>, active: seq<nat>) returns (funcs: seq<Leaf<T>>)
    ensures funcs == Candidates(nodes, active, |active|)
  {
    funcs := [];
    for j := 0 to |active|
      invariant funcs == Candidates(nodes, active, j)
    {
      var fo := FuncOf(nodes, active[j]);
      if fo.Some? {
        funcs := funcs + [fo.value];
      }
    }
  }

  /** A function a lookup finds is one of the registered functions. */
  lemma FoundRegistered<A, T, V>(ts: TypeSystem<A, T, V>, nodes: seq<Node<T>>, paths: seq<seq<T>>, args: seq<V>)
    requires WellFormed(nodes, paths)
    ensures Dispatch(ts, nodes, args).Found? ==> Dispatch(ts, nodes, args).f in FuncsOf(Registered(nodes))
  {
    DispatchOutcomes(ts, nodes, paths, args);
    if Dispatch(ts, nodes, args).Found? {
      var l :| l in Registered(nodes) && Admits(ts, args, |args|, l.sig) && l.f == Dispatch(ts, nodes, args).f;
      assert l.f in FuncsOf(Registered(nodes));
    }
  }

  /** The two values are instances of the same types. */
  ghost predicate Alike<A, T(!new), V>(ts: TypeSystem<A, T, V>, a: V, b: V) {
    forall t :: ts.isInstance(a, t) == ts.isInstance(b, t)
  }

  /** Two arguments that are instances of the same types follow the same edges. */
  lemma {:induction false} FollowByType<A, T(!new), V>(ts: TypeSystem<A, T, V>, edges: seq<(T, nat)>, a: V, b: V, n: nat)
    requires Alike(ts, a, b) && n <= |edges|
    ensures Follow(ts, edges, a, n) == Follow(ts, edges, b, n)
  {
    if n > 0 {
      FollowByType(ts, edges, a, b, n - 1);
      assert ts.isInstance(a, edges[n - 1].0) == ts.isInstance(b, edges[n - 1].0);
    }
  }

  lemma {:induction false} StepByType<A, T(!new), V>(ts: TypeSystem<A, T, V>, nodes: seq<Node<T>>, frontier: seq<nat>, a: V, b: V, n: nat)
    requires Alike(ts, a, b) && n <= |frontier|
    ensures Step(ts, nodes, frontier, a, n) == Step(ts, nodes, frontier, b, n)
  {
    if n > 0 {
      StepByType(ts, nodes, frontier, a, b, n - 1);
      var edges := EdgesOf(nodes, frontier[n - 1]);
      FollowByType(ts, edges, a, b, |edges|);
    }
  }

  /** The first k arguments of the two lists are, position by position,
    * instances of the same types. */
  ghost predicate AlikeUpTo<A, T(!new), V>(ts: TypeSystem<A, T, V>, args1: seq<V>, args2: seq<V>, k: nat)
    requires k <= |args1| && k <= |args2|
  {
    k == 0 || (AlikeUpTo(ts, args1, args2, k - 1) && Alike(ts, args1[k - 1], args2[k - 1]))
  }

  lemma {:induction false} AlikeUpToAll<A, T(!new), V>(ts: TypeSystem<A, T, V>, args1: seq<V>, args2: seq<V>, k: nat)
    requires k <= |args1| == |args2|
    requires forall i | 0 <= i < |args1| :: Alike(ts, args1[i], args2[i])
    ensures AlikeUpTo(ts, args1, args2, k)
  {
    if k > 0 {
      AlikeUpToAll(ts, args1, args2, k - 1);
    }
  }

  /** Argument lists whose arguments are, position by position, instances of
    * the same types reach the same nodes. */
  lemma {:induction false} ReachAlike<A, T(!new), V>(ts: TypeSystem<A, T, V>, nodes: seq<Node<T>>, args1: seq<V>, args2: seq<V>, k: nat)
    requires k <= |args1| && k <= |args2| && AlikeUpTo(ts, args1, args2, k)
    ensures Reach(ts, nodes, args1, k) == Reach(ts, nodes, args2, k)
  {
    if k > 0 {
      ReachAlike(ts, nodes, args1, args2, k - 1);
      var frontier := Reach(ts, nodes, args1, k - 1);
      StepByType(ts, nodes, frontier, args1[k - 1], args2[k - 1], |frontier|);
    }
  }

  /* The lemma below relies on instance tests that depend on the value's type
   * alone, as `isinstance(value, t)` is `issubclass(type(value), t)` for
   * plain classes: what makes keying the cache by `get_type` sound. */

  /** Argument lists of the same types reach the same nodes. */
  lemma ReachByType<A, T(!new), V>(ts: TypeSystem<A, T, V>, nodes: seq<Node<T>>, args1: seq<V>, args2: seq<V>, k: nat)
    requires (forall a, t :: ts.isInstance(a, t) == ts.isSubclass(ts.getType(a), t)) && ArgTypes(ts, args1) == ArgTypes(ts, args2) && k <= |args1|
    ensures |args1| == |args2| && Reach(ts, nodes, args1, k) == Reach(ts, nodes, args2, k)
  {
    assert |ArgTypes(ts, args1)| == |args1| && |ArgTypes(ts, args2)| == |args2|;
    forall i | 0 <= i < |args1|
      ensures Alike(ts, args1[i], args2[i])
    {
      assert ArgTypes(ts, args1)[i] == ts.getType(args1[i]);
      assert ArgTypes(ts, args2)[i] == ts.getType(args2[i]);
    }
    AlikeUpToAll(ts, args1, args2, k);
    ReachAlike(ts, nodes, args1, args2, k);
  }

  /** Arguments of the same types dispatch alike, so a cache keyed by the
    * argument types answers what a fresh lookup would. */
  lemma CacheKeySound<A, T(!new), V>(ts: TypeSystem<A, T, V>, nodes: seq<Node<T>>, args1: seq<V>, args2: seq<V>)
    requires (forall a, t :: ts.isInstance(a, t) == ts.isSubclass(ts.getType(a), t)) && ArgTypes(ts, args1) == ArgTypes(ts, args2)
    ensures Dispatch(ts, nodes, args1) == Dispatch(ts, nodes, args2)
  {
    ReachByType(ts, nodes, args1, args2, |args1|);
  }

  /** What `define_function` reports: success, or the ValueError naming the
    * signature a function of the tree already holds. */
  datatype Definition<T> = Defined | MatchesExisting(signature: seq<T>)

  class TypeTree<A, T(==, !new), V> {
    const name: string
    const ts: TypeSystem<A, T, V>
    var nodes: seq<Node<T>>
    /** The edge types from the root down to each node. */
    ghost var paths: seq<seq<T>>
    /** `_cache`: argument types to the function a lookup returned for them. */
    var cache: map<seq<T>, Func>
    /** For each cache key, the arguments whose lookup filled it. */
    ghost var seen: map<seq<T>, seq<V>>

    /** The trie is well formed and the cache holds only registered functions. */
    ghost predicate Valid()
      reads this
    {
      |nodes| == |paths| && WellFormed(nodes, paths) && cache.Values <= FuncsOf(Registered(nodes))
    }

    constructor(name: string, ts: TypeSystem<A, T, V>)
      ensures Valid() && this.name == name && this.ts == ts
      ensures Registered(nodes) == {} && cache == map[] && CacheCurrent()
    {
      this.name := name;
      this.ts := ts;
      nodes := [Node([], None)];
      paths := [[]];
      cache := map[];
      seen := map[];
    }

    /** Every cached function is what a lookup of the arguments it was first
      * computed for returns from the current trie. */
    ghost predicate CacheCurrent()
      reads this
    {
      forall key | key in cache ::
        key in seen && ArgTypes(ts, seen[key]) == key && Dispatch(ts, nodes, seen[key]) == Found(cache[key])
    }

    /** `find_function`: walk the trie argument by argument, keeping every
      * node whose edge types admit the arguments so far, then choose among
      * the functions at the nodes reached. */
    method FindFunction(args: seq<V>) returns (r: Lookup<T>)
      requires Valid()
      ensures r == Dispatch(ts, nodes, args)
      ensures r.Found? ==> r.f in FuncsOf(Registered(nodes))
      ensures r.Unresolved? ==> r.outcome == Ambiguous
    {
      var active := WalkArgs(ts, nodes, args);
      var funcs := CollectFuncs(nodes, active);
      DispatchOutcomes(ts, nodes, paths, args);
      FoundRegistered(ts, nodes, paths, args);
      if |funcs| == 0 {
        r := NotFound;
      } else if |funcs| > 1 {
        var o := ChooseMostSpecific(ts, funcs);
        r := if o.Chosen? then Found(o.leaf.f) else Unresolved(o);
      } else {
        r := Found(funcs[0].f);
      }
    }

    /** `find_function_cached`: answer from the cache when the argument types
      * were seen before, otherwise look up and remember the function found.
      * The cache is never cleared, so an answer may predate later
      * definitions. */
    method FindFunctionCached(args: seq<V>) returns (r: Lookup<T>)
      requires Valid()
      modifies this
      ensures Valid() && nodes == old(nodes) && paths == old(paths)
      ensures ArgTypes(ts, args) in old(cache) ==>
        r == Found(old(cache)[ArgTypes(ts, args)]) && cache == old(cache)
      ensures ArgTypes(ts, args) !in old(cache) ==>
        r == Dispatch(ts, nodes, args) &&
        cache == if r.Found? then old(cache)[ArgTypes(ts, args) := r.f] else old(cache)
      ensures r.Found? ==> r.f in FuncsOf(Registered(nodes))
      ensures r.Found? ==> ArgTypes(ts, args) in cache && cache[ArgTypes(ts, args)] == r.f
      ensures r.Unresolved? ==> r.outcome == Ambiguous
      ensures (forall a, t :: ts.isInstance(a, t) == ts.isSubclass(ts.getType(a), t)) && old(CacheCurrent()) ==>
        CacheCurrent() && r == Dispatch(ts, nodes, args)
    {
      var key := ArgTypes(ts, args);
      if key in cache {
        r := Found(cache[key]);
        assert cache[key] in cache.Values;
        if (forall a, t :: ts.isInstance(a, t) == ts.isSubclass(ts.getType(a), t)) && CacheCurrent() {
          CacheKeySound(ts, nodes, args, seen[key]);
        }
        return;
      }
      r := FindFunction(args);
      if r.Found? {
        cache := cache[key := r.f];
        seen := seen[key := args];
      }
    }

    /** `node.follow_type[t]`: the child of node n along type t, created
      * (with the edge to it) when n has none. */
    method FollowType(n: nat, t: T) returns (c: nat)
      requires Valid() && n < |nodes|
      modifies this
      ensures Valid() && cache == old(cache) && Registered(nodes) == old(Registered(nodes))
      ensures |old(paths)| <= |paths| && paths[..|old(paths)|] == old(paths)
      ensures c < |nodes| && paths[c] == paths[n] + [t]
    {
      var edges := nodes[n].edges;
      for e := 0 to |edges|
        invariant forall q | 0 <= q < e :: edges[q].0 != t
      {
        if edges[e].0 == t {
          assert EdgeFits(nodes, paths, n, e);
          c := edges[e].1;
          assert paths[..|paths|] == paths;
          return;
        }
      }
      AddChildWellFormed(nodes, paths, n, t);
      c := |nodes|;
      nodes := AddChild(nodes, n, t);
      paths := paths + [paths[n] + [t]];
    }

    /** `define_function`: register f under each of its signatures, walking
      * (and growing) the trie along the signature's types; a signature that
      * already holds a function raises the ValueError, leaving the signatures
      * before it registered. */
    method DefineFunction(f: Func, params: seq<Param<A>>) returns (r: Definition<T>)
      requires Valid()
      modifies this
      ensures Valid() && cache == old(cache)
      ensures |old(paths)| <= |paths| && paths[..|old(paths)|] == old(paths)
      ensures Install(old(Registered(nodes)), f, SignaturesOf(ts, params)) ==
        (Registered(nodes), if r.MatchesExisting? then Some(r.signature) else None)
    {
      var sigs := GetFuncSignatures(ts, params);
      ghost var table0 := Registered(nodes);
      for i := 0 to |sigs|
        invariant Valid() && cache == old(cache)
        invariant |old(paths)| <= |paths| && paths[..|old(paths)|] == old(paths)
        invariant Install(table0, f, sigs) == Install(Registered(nodes), f, sigs[i..])
      {
        var sig := sigs[i];
        var node: nat := 0;
        ghost var table := Registered(nodes);
        for k := 0 to |sig|
          invariant Valid() && cache == old(cache) && Registered(nodes) == table
          invariant |old(paths)| <= |paths| && paths[..|old(paths)|] == old(paths)
          invariant node < |nodes| && paths[node] == sig[..k]
        {
          ghost var before := paths;
          node := FollowType(node, sig[k]);
          assert sig[..k + 1] == sig[..k] + [sig[k]];
          assert paths[..|old(paths)|] == before[..|old(paths)|];
        }
        assert sig[..|sig|] == sig;
        TakenAt(nodes, paths, node);
        assert sigs[i..][0] == sig;
        if nodes[node].func.Some? {
          r := MatchesExisting(sig);
          return;
        }
        assert sigs[i..][1..] == sigs[i + 1..];
        SetLeafWellFormed(nodes, paths, node, Leaf(f, sig));
        FuncsGrow(Registered(nodes), Registered(nodes) + {Leaf(f, sig)});
        nodes := SetLeaf(nodes, node, Leaf(f, sig));
      }
      r := Defined;
    }
  }

  /** A Python function as the decorator sees it: its `__qualname__`, its
    * identity with its `__dispatch_priority__`, and its parameters. */
  datatype PyFunc<A> = PyFunc(qualname: string, f: Func, params: seq<Param<A>>)

  /** What `MultiDispatch.__call__` returns or raises: the dispatching
    * wrapper for a name, a `MultiDispatchWithOptions` carrying a priority, the
    * ValueError for a bad combination of arguments, or the ValueError of
    * `define_function`. */
  datatype Decorated<T> =
    | Dispatched(qualname: string)
    | WithOptions(priority: int)
    | BadArguments
    | DuplicateSignature(signature: seq<T>)

  /** Registering f under its signatures took the table of the function's
    * name from `before` to `after`, as `define_function` specifies, and the
    * outcome reports it. */
  ghost predicate Registration<T>(before: set<Leaf<T>>, after: set<Leaf<T>>, qualname: string, f: Func, sigs: seq<seq<T>>, r: Decorated<T>) {
    && (r.Dispatched? || r.DuplicateSignature?)
    && (r.Dispatched? ==> r.qualname == qualname)
    && Install(before, f, sigs) == (after, if r.DuplicateSignature? then Some(r.signature) else None)
  }

  /** `MultiDispatch`: one dispatch tree per qualified function name. */
  class MultiDispatch<A, T(==, !new), V> {
    const ts: TypeSystem<A, T, V>
    /** `fname_to_tree` */
    var trees: map<string, TypeTree<A, T, V>>

    /** Every tree is valid, uses this type system and is filed under its own
      * name (so distinct names hold distinct trees). */
    ghost predicate Valid()
      reads this, trees.Values
    {
      forall q | q in trees :: trees[q].Valid() && trees[q].ts == ts && trees[q].name == q
    }

    constructor(ts: TypeSystem<A, T, V>)
      ensures Valid() && this.ts == ts && trees == map[]
    {
      this.ts := ts;
      trees := map[];
    }

    /** The table a name's functions are registered in; empty before the
      * name's tree exists. */
    ghost function TableOf(q: string): set<Leaf<T>>
      reads this, trees.Values
    {
      if q in trees then Registered(trees[q].nodes) else {}
    }

    /** The lookup cache of a name's tree; empty before the tree exists. */
    ghost function CacheOf(q: string): map<seq<T>, Func>
      reads this, trees.Values
    {
      if q in trees then trees[q].cache else map[]
    }

    /** `fname_to_tree[q]`, created on first use. */
    method TreeFor(q: string) returns (tree: TypeTree<A, T, V>)
      requires Valid()
      modifies this
      ensures Valid() && trees == old(trees)[q := tree]
      ensures q !in old(trees) ==> fresh(tree) && Registered(tree.nodes) == {} && tree.cache == map[]
      ensures q in old(trees) ==> tree == old(trees[q])
      ensures tree.Valid() && tree.ts == ts && tree.name == q
      ensures Registered(tree.nodes) == old(TableOf(q)) && tree.cache == old(CacheOf(q))
    {
      if q in trees {
        tree := trees[q];
      } else {
        tree := new TypeTree(q, ts);
        trees := trees[q := tree];
      }
    }

    /** The decorator applied to a function: file it under its qualified
      * name and define it in that name's tree. */
    method Register(g: PyFunc<A>) returns (r: Decorated<T>)
      requires Valid()
      modifies this, trees.Values
      ensures Valid() && g.qualname in trees && trees == old(trees)[g.qualname := trees[g.qualname]]
      ensures g.qualname in old(trees) ==> trees[g.qualname] == old(trees[g.qualname])
      ensures g.qualname !in old(trees) ==> fresh(trees[g.qualname])
      ensures forall q | q in old(trees) && q != g.qualname :: unchanged(trees[q])
      ensures Registration(old(TableOf(g.qualname)), TableOf(g.qualname), g.qualname, g.f, SignaturesOf(ts, g.params), r)
      ensures CacheOf(g.qualname) == old(CacheOf(g.qualname))
    {
      var tree := TreeFor(g.qualname);
      r := DefineIn(tree, g);
    }

    /** `self.fname_to_tree[qualname].define_function(f)` on the name's tree. */
    method DefineIn(tree: TypeTree<A, T, V>, g: PyFunc<A>) returns (r: Decorated<T>)
      requires Valid() && g.qualname in trees && trees[g.qualname] == tree
      modifies tree
      ensures Valid() && trees == old(trees)
      ensures forall q | q in trees && q != g.qualname :: trees[q] != tree
      ensures Registration(old(TableOf(g.qualname)), TableOf(g.qualname), g.qualname, g.f, SignaturesOf(ts, g.params), r)
      ensures CacheOf(g.qualname) == old(CacheOf(g.qualname))
    {
      var d := tree.DefineFunction(g.f, g.params);
      forall q | q in trees && q != g.qualname
        ensures trees[q] != tree
      {
        assert trees[q].name != tree.name;
      }
      r := if d.Defined? then Dispatched(g.qualname) else DuplicateSignature(d.signature);
    }

    /** `__call__(func=None, *, priority=None)`: exactly one of the two must
      * be given; a priority alone yields a decorator that sets it. */
    method Call(func: Option<PyFunc<A>>, priority: Option<int>) returns (r: Decorated<T>)
      requires Valid()
      modifies this, trees.Values
      ensures Valid()
      ensures func.None? ==>
        && trees == old(trees) && (forall q | q in trees :: unchanged(trees[q]))
        && r == if priority.Some? then WithOptions(priority.value) else BadArguments
      ensures func.Some? && priority.Some? ==>
        trees == old(trees) && (forall q | q in trees :: unchanged(trees[q])) && r == BadArguments
      ensures func.Some? && priority.None? ==>
        var g := func.value;
        && g.qualname in trees && trees == old(trees)[g.qualname := trees[g.qualname]]
        && (g.qualname in old(trees) ==> trees[g.qualname] == old(trees[g.qualname]))
        && (forall q | q in old(trees) && q != g.qualname :: unchanged(trees[q]))
        && (g.qualname !in old(trees) ==> fresh(trees[g.qualname]))
        && Registration(old(TableOf(g.qualname)), TableOf(g.qualname), g.qualname, g.f, SignaturesOf(ts, g.params), r)
        && CacheOf(g.qualname) == old(CacheOf(g.qualname))
    {
      if func.None? {
        if priority.None? {
          return BadArguments;
        }
        return WithOptions(priority.value);
      }
      if priority.Some? {
        return BadArguments;
      }
      r := Register(func.value);
    }

    /** `MultiDispatchWithOptions.__call__`: set the function's
      * `__dispatch_priority__`, then decorate it. */
    method CallWithOptions(priority: int, g: PyFunc<A>) returns (r: Decorated<T>)
      requires Valid()
      modifies this, trees.Values
      ensures Valid()
      ensures g.qualname in trees && trees == old(trees)[g.qualname := trees[g.qualname]]
      ensures g.qualname in old(trees) ==> trees[g.qualname] == old(trees[g.qualname])
      ensures forall q | q in old(trees) && q != g.qualname :: unchanged(trees[q])
      ensures g.qualname !in old(trees) ==> fresh(trees[g.qualname])
      ensures Registration(old(TableOf(g.qualname)), TableOf(g.qualname), g.qualname,
        Func(g.f.id, priority), SignaturesOf(ts, g.params), r)
      ensures CacheOf(g.qualname) == old(CacheOf(g.qualname))
    {
      var g' := g.(f := g.f.(priority := priority));
      r := Call(Some(g'), None);
    }

    /** `dispatched_f(*args)`: the function the cached lookup of the name's
      * tree picks for these arguments. */
    method Invoke(q: string, args: seq<V>) returns (r: Lookup<T>)
      requires Valid() && q in trees
      modifies trees[q]
      ensures Valid()
      ensures r.Found? ==> r.f in FuncsOf(TableOf(q))
      ensures r.Unresolved? ==> r.outcome == Ambiguous
      ensures ArgTypes(ts, args) !in old(trees[q].cache) ==> r == Dispatch(ts, trees[q].nodes, args)
      ensures ArgTypes(ts, args) in old(trees[q].cache) ==> r == Found(old(trees[q].cache[ArgTypes(ts, args)]))
      ensures TableOf(q) == old(TableOf(q))
      ensures CacheOf(q) == if r.Found? then old(CacheOf(q))[ArgTypes(ts, args) := r.f] else old(CacheOf(q))
    {
      var tree := trees[q];
      r := tree.FindFunctionCached(args);
    }
  }
}
