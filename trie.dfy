/**
 * The dispatch trie of one function name (`TypeNode` / `TypeTree` in
 * runtype/dispatch.py), as values: the nodes live in one sequence, node 0 is
 * the root, and an edge is a pair of a type and the index of the child it
 * leads to, kept in insertion order as the `follow_type` dictionary keeps them.
 */
module DispatchTrie {
  import opened Values
  import opened TypeSystems
  import opened Resolver

  /** `TypeNode`: the `follow_type` children, in insertion order, and the leaf
    * `(func, signature)` once a function is registered here. */
  datatype Node<T> = Node(edges: seq<(T, nat)>, func: Option<Leaf<T>>)

  /** What holds of every trie `define_function` builds: paths[c] is the
    * sequence of edge types from the root down to node c, every node but the
    * root hangs off one edge of an earlier node, no two edges of one node
    * carry the same type, no two nodes have the same path, and a leaf's
    * signature is the path to its node. */
  ghost predicate WellFormed<T>(nodes: seq<Node<T>>, paths: seq<seq<T>>) {
    && |nodes| == |paths| > 0
    && paths[0] == []
    && (forall n, e | 0 <= n < |nodes| && 0 <= e < |nodes[n].edges| :: EdgeFits(nodes, paths, n, e))
    && (forall n, e1, e2 | 0 <= n < |nodes| && 0 <= e1 < |nodes[n].edges| && 0 <= e2 < |nodes[n].edges| && e1 != e2 ::
          EdgeType(nodes, n, e1) != EdgeType(nodes, n, e2))
    && (forall c | 0 < c < |nodes| :: HasParent(nodes, c))
    && (forall c1, c2 | 0 <= c1 < |nodes| && 0 <= c2 < |nodes| && c1 != c2 :: PathsDiffer(paths, c1, c2))
    && (forall c | 0 <= c < |nodes| :: LeafFits(nodes, paths, c))
  }

  /** Edge e of node n leads to a later node, whose path extends n's by the edge type. */
  ghost predicate EdgeFits<T>(nodes: seq<Node<T>>, paths: seq<seq<T>>, n: nat, e: nat)
    requires |nodes| == |paths| && n < |nodes| && e < |nodes[n].edges|
  {
    n < nodes[n].edges[e].1 < |nodes| && paths[nodes[n].edges[e].1] == paths[n] + [nodes[n].edges[e].0]
  }

  ghost predicate PathsDiffer<T>(paths: seq<seq<T>>, c1: nat, c2: nat)
    requires c1 < |paths| && c2 < |paths|
  {
    paths[c1] != paths[c2]
  }

  /** A leaf at node c carries the path to c as its signature. */
  ghost predicate LeafFits<T>(nodes: seq<Node<T>>, paths: seq<seq<T>>, c: nat)
    requires |nodes| == |paths| && c < |nodes|
  {
    nodes[c].func.Some? ==> nodes[c].func.value.sig == paths[c]
  }

  /** The type on edge e of node n. */
  function EdgeType<T>(nodes: seq<Node<T>>, n: nat, e: nat): T
    requires n < |nodes| && e < |nodes[n].edges|
  {
    nodes[n].edges[e].0
  }

  /** Some earlier node has an edge to node c. */
  ghost predicate HasParent<T>(nodes: seq<Node<T>>, c: nat)
    requires c <= |nodes|
  {
    exists p, e | 0 <= p < c && 0 <= e < |nodes[p].edges| :: nodes[p].edges[e].1 == c
  }

  /** The children of a node; an index past the end has none. */
  function EdgesOf<T>(nodes: seq<Node<T>>, c: nat): seq<(T, nat)> {
    if c < |nodes| then nodes[c].edges else []
  }

  /** `follow_arg`: the children, among the first n edges, whose edge type
    * the argument is an instance of, in edge order. */
  function Follow<A, T, V>(ts: TypeSystem<A, T, V>, edges: seq<(T, nat)>, a: V, n: nat): seq<nat>
    requires n <= |edges|
  {
    if n == 0 then []
    else Follow(ts, edges, a, n - 1) + (if ts.isInstance(a, edges[n - 1].0) then [edges[n - 1].1] else [])
  }

  /** One step of the lookup: the children each of the first n active nodes
    * follows for argument a, one node after the other. */
  function Step<A, T, V>(ts: TypeSystem<A, T, V>, nodes: seq<Node<T>>, frontier: seq<nat>, a: V, n: nat): seq<nat>
    requires n <= |frontier|
  {
    if n == 0 then []
    else
      var edges := EdgesOf(nodes, frontier[n - 1]);
      Step(ts, nodes, frontier, a, n - 1) + Follow(ts, edges, a, |edges|)
  }

  /** The active nodes after the first k arguments, starting from `[root]`. */
  function Reach<A, T, V>(ts: TypeSystem<A, T, V>, nodes: seq<Node<T>>, args: seq<V>, k: nat): seq<nat>
    requires k <= |args|
  {
    if k == 0 then [0]
    else
      var frontier := Reach(ts, nodes, args, k - 1);
      Step(ts, nodes, frontier, args[k - 1], |frontier|)
  }

  /** The leaf of a node, if it has one. */
  function FuncOf<T>(nodes: seq<Node<T>>, c: nat): Option<Leaf<T>> {
    if c < |nodes| then nodes[c].func else None
  }

  /** `[node.func for node in nodes if node.func]` over the first n nodes. */
  function Candidates<T>(nodes: seq<Node<T>>, reached: seq<nat>, n: nat): seq<Leaf<T>>
    requires n <= |reached|
  {
    if n == 0 then []
    else
      var fo := FuncOf(nodes, reached[n - 1]);
      Candidates(nodes, reached, n - 1) + (if fo.Some? then [fo.value] else [])
  }

  /** How a lookup ends: a function, the `DispatchError` for no match, or the
    * resolver's failure (an ambiguity or one of its internal errors). */
  datatype Lookup<T> = Found(f: Func) | NotFound | Unresolved(outcome: Outcome<T>)

  /** The leaves a call with these arguments reaches. */
  function Matching<A, T, V>(ts: TypeSystem<A, T, V>, nodes: seq<Node<T>>, args: seq<V>): seq<Leaf<T>> {
    var reached := Reach(ts, nodes, args, |args|);
    Candidates(nodes, reached, |reached|)
  }

  /** The specification of `find_function`. */
  ghost function Dispatch<A, T, V>(ts: TypeSystem<A, T, V>, nodes: seq<Node<T>>, args: seq<V>): Lookup<T> {
    var cands := Matching(ts, nodes, args);
    if |cands| == 0 then NotFound
    else if |cands| == 1 then Found(cands[0].f)
    else
      var o := Resolve(ts, cands);
      if o.Chosen? then Found(o.leaf.f) else Unresolved(o)
  }

  /** The leaves of the trie: its table of registered signatures. */
  ghost function Registered<T>(nodes: seq<Node<T>>): set<Leaf<T>> {
    set c | 0 <= c < |nodes| && nodes[c].func.Some? :: nodes[c].func.value
  }

  /** The signature's types admit the first k arguments, one by one. */
  ghost predicate Admits<A, T, V>(ts: TypeSystem<A, T, V>, args: seq<V>, k: nat, sig: seq<T>)
    requires k <= |args|
  {
    |sig| == k && forall i | 0 <= i < k :: ts.isInstance(args[i], sig[i])
  }

  predicate NoDup(s: seq<nat>) {
    forall i, j | 0 <= i < j < |s| :: s[i] != s[j]
  }

  /** `node.follow_type[t]` for a type node n does not have yet: the
    * defaultdict appends a fresh empty node and an edge to it. */
  function AddChild<T>(nodes: seq<Node<T>>, n: nat, t: T): seq<Node<T>>
    requires n < |nodes|
  {
    nodes[n := Node(nodes[n].edges + [(t, |nodes|)], nodes[n].func)] + [Node([], None)]
  }

  /** `node.func = f, signature` at node c. */
  function SetLeaf<T>(nodes: seq<Node<T>>, c: nat, leaf: Leaf<T>): seq<Node<T>>
    requires c < |nodes|
  {
    nodes[c := Node(nodes[c].edges, Some(leaf))]
  }

  /** Some leaf of the table carries this signature. */
  ghost predicate Taken<T>(table: set<Leaf<T>>, sig: seq<T>) {
    exists l | l in table :: l.sig == sig
  }

  /** The specification of `define_function` over the table of leaves: the
    * signatures are installed in order until one is already taken, which is
    * the one the ValueError reports. */
  ghost function Install<T>(table: set<Leaf<T>>, f: Func, sigs: seq<seq<T>>): (set<Leaf<T>>, Option<seq<T>>)
    decreases |sigs|
  {
    if |sigs| == 0 then (table, None)
    else if Taken(table, sigs[0]) then (table, Some(sigs[0]))
    else Install(table + {Leaf(f, sigs[0])}, f, sigs[1..])
  }
}
