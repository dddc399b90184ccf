/** What registration does to a well-formed dispatch trie. */
module DefineLemmas {
  import opened Values
  import opened TypeSystems
  import opened Signatures
  import opened Resolver
  import opened DispatchTrie
  import opened TrieLemmas

  /** The path a new child of n under t would get belongs to no node yet. */
  lemma NewPathFresh<T>(nodes: seq<Node<T>>, paths: seq<seq<T>>, n: nat, t: T, c: nat)
    requires WellFormed(nodes, paths) && n < |nodes| && c < |nodes|
    requires forall e | 0 <= e < |nodes[n].edges| :: nodes[n].edges[e].0 != t
    ensures paths[c] != paths[n] + [t]
  {
    if c != 0 {
      assert HasParent(nodes, c);
      var p, e :| 0 <= p < c && 0 <= e < |nodes[p].edges| && nodes[p].edges[e].1 == c;
      assert EdgeFits(nodes, paths, p, e);
      PathsDistinct(nodes, paths, p, n);
      var k := nodes[p].edges[e].0;
      if p == n {
        assert k != t;
        assert (paths[p] + [k])[|paths[p]|] != (paths[n] + [t])[|paths[n]|];
      } else if |paths[p]| == |paths[n]| {
        assert (paths[p] + [k])[..|paths[p]|] == paths[p];
        assert (paths[n] + [t])[..|paths[n]|] == paths[n];
      }
    }
  }

  lemma AddChildEdges<T>(nodes: seq<Node<T>>, paths: seq<seq<T>>, n: nat, t: T)
    requires WellFormed(nodes, paths) && n < |nodes|
    ensures var nodes', paths' := AddChild(nodes, n, t), paths + [paths[n] + [t]];
      forall q, e | 0 <= q < |nodes'| && 0 <= e < |nodes'[q].edges| :: EdgeFits(nodes', paths', q, e)
  {
    var nodes', paths' := AddChild(nodes, n, t), paths + [paths[n] + [t]];
    forall q, e | 0 <= q < |nodes'| && 0 <= e < |nodes'[q].edges|
      ensures EdgeFits(nodes', paths', q, e)
    {
      if !(q == n && e == |nodes[n].edges|) {
        assert nodes'[q].edges[e] == nodes[q].edges[e];
        assert EdgeFits(nodes, paths, q, e);
      }
    }
  }

  lemma AddChildKeys<T>(nodes: seq<Node<T>>, paths: seq<seq<T>>, n: nat, t: T)
    requires WellFormed(nodes, paths) && n < |nodes|
    requires forall e | 0 <= e < |nodes[n].edges| :: nodes[n].edges[e].0 != t
    ensures var nodes' := AddChild(nodes, n, t);
      forall q, e1, e2 | 0 <= q < |nodes'| && 0 <= e1 < |nodes'[q].edges| && 0 <= e2 < |nodes'[q].edges| && e1 != e2 ::
        EdgeType(nodes', q, e1) != EdgeType(nodes', q, e2)
  {
    var nodes' := AddChild(nodes, n, t);
    var m := |nodes[n].edges|;
    forall q, e1, e2 | 0 <= q < |nodes'| && 0 <= e1 < |nodes'[q].edges| && 0 <= e2 < |nodes'[q].edges| && e1 != e2
      ensures EdgeType(nodes', q, e1) != EdgeType(nodes', q, e2)
    {
      if q < |nodes| && e1 < |nodes[q].edges| && e2 < |nodes[q].edges| {
        assert EdgeType(nodes', q, e1) == EdgeType(nodes, q, e1);
        assert EdgeType(nodes', q, e2) == EdgeType(nodes, q, e2);
      }
    }
  }

  lemma AddChildParents<T>(nodes: seq<Node<T>>, paths: seq<seq<T>>, n: nat, t: T)
    requires WellFormed(nodes, paths) && n < |nodes|
    ensures var nodes' := AddChild(nodes, n, t);
      forall c | 0 < c < |nodes'| :: HasParent(nodes', c)
  {
    var nodes' := AddChild(nodes, n, t);
    forall c | 0 < c < |nodes'|
      ensures HasParent(nodes', c)
    {
      if c == |nodes| {
        assert nodes'[n].edges[|nodes[n].edges|].1 == c;
      } else {
        assert HasParent(nodes, c);
        var p, e :| 0 <= p < c && 0 <= e < |nodes[p].edges| && nodes[p].edges[e].1 == c;
        assert nodes'[p].edges[e] == nodes[p].edges[e];
      }
    }
  }

  lemma AddChildPaths<T>(nodes: seq<Node<T>>, paths: seq<seq<T>>, n: nat, t: T)
    requires WellFormed(nodes, paths) && n < |nodes|
    requires forall e | 0 <= e < |nodes[n].edges| :: nodes[n].edges[e].0 != t
    ensures var paths' := paths + [paths[n] + [t]];
      forall c1, c2 | 0 <= c1 < |paths'| && 0 <= c2 < |paths'| && c1 != c2 :: PathsDiffer(paths', c1, c2)
  {
    var paths' := paths + [paths[n] + [t]];
    forall c1, c2 | 0 <= c1 < |paths'| && 0 <= c2 < |paths'| && c1 != c2
      ensures PathsDiffer(paths', c1, c2)
    {
      if c1 < |paths| && c2 < |paths| {
        PathsDistinct(nodes, paths, c1, c2);
      } else if c1 < |paths| {
        NewPathFresh(nodes, paths, n, t, c1);
      } else {
        NewPathFresh(nodes, paths, n, t, c2);
      }
    }
  }

  /** Creating the child keeps the trie well formed and registers nothing. */
  lemma AddChildWellFormed<T>(nodes: seq<Node<T>>, paths: seq<seq<T>>, n: nat, t: T)
    requires WellFormed(nodes, paths) && n < |nodes|
    requires forall e | 0 <= e < |nodes[n].edges| :: nodes[n].edges[e].0 != t
    ensures WellFormed(AddChild(nodes, n, t), paths + [paths[n] + [t]])
    ensures Registered(AddChild(nodes, n, t)) == Registered(nodes)
  {
    var nodes', paths' := AddChild(nodes, n, t), paths + [paths[n] + [t]];
    AddChildEdges(nodes, paths, n, t);
    AddChildKeys(nodes, paths, n, t);
    AddChildParents(nodes, paths, n, t);
    AddChildPaths(nodes, paths, n, t);
    forall c | 0 <= c < |nodes'|
      ensures LeafFits(nodes', paths', c)
    {
      if c < |nodes| {
        assert LeafFits(nodes, paths, c);
      }
    }
    forall l | l in Registered(nodes')
      ensures l in Registered(nodes)
    {
      var c :| 0 <= c < |nodes'| && nodes'[c].func == Some(l);
      assert nodes[c].func == Some(l);
    }
    forall l | l in Registered(nodes)
      ensures l in Registered(nodes')
    {
      var c :| 0 <= c < |nodes| && nodes[c].func == Some(l);
      assert nodes'[c].func == Some(l);
    }
  }

  /** Putting a leaf with the node's own path on an empty node keeps the trie
    * well formed and adds just that leaf. */
  lemma SetLeafWellFormed<T>(nodes: seq<Node<T>>, paths: seq<seq<T>>, c: nat, leaf: Leaf<T>)
    requires WellFormed(nodes, paths) && c < |nodes| && nodes[c].func.None? && leaf.sig == paths[c]
    ensures WellFormed(SetLeaf(nodes, c, leaf), paths)
    ensures Registered(SetLeaf(nodes, c, leaf)) == Registered(nodes) + {leaf}
  {
    var nodes' := SetLeaf(nodes, c, leaf);
    forall q, e | 0 <= q < |nodes'| && 0 <= e < |nodes'[q].edges|
      ensures EdgeFits(nodes', paths, q, e)
    {
      assert EdgeFits(nodes, paths, q, e);
    }
    forall q, e1, e2 | 0 <= q < |nodes'| && 0 <= e1 < |nodes'[q].edges| && 0 <= e2 < |nodes'[q].edges| && e1 != e2
      ensures EdgeType(nodes', q, e1) != EdgeType(nodes', q, e2)
    {
      assert EdgeType(nodes', q, e1) == EdgeType(nodes, q, e1);
      assert EdgeType(nodes', q, e2) == EdgeType(nodes, q, e2);
    }
    forall q | 0 < q < |nodes'|
      ensures HasParent(nodes', q)
    {
      assert HasParent(nodes, q);
      var p, e :| 0 <= p < q && 0 <= e < |nodes[p].edges| && nodes[p].edges[e].1 == q;
      assert nodes'[p].edges[e] == nodes[p].edges[e];
    }
    forall q | 0 <= q < |nodes'|
      ensures LeafFits(nodes', paths, q)
    {
      assert LeafFits(nodes, paths, q);
    }
    forall l | l in Registered(nodes')
      ensures l in Registered(nodes) + {leaf}
    {
      var q :| 0 <= q < |nodes'| && nodes'[q].func == Some(l);
      if q != c {
        assert nodes[q].func == Some(l);
      }
    }
    forall l | l in Registered(nodes) + {leaf}
      ensures l in Registered(nodes')
    {
      if l != leaf {
        var q :| 0 <= q < |nodes| && nodes[q].func == Some(l);
        assert nodes'[q].func == Some(l);
      } else {
        assert nodes'[c].func == Some(l);
      }
    }
  }

  /** A node holds a leaf exactly when its path is a taken signature. */
  lemma TakenAt<T>(nodes: seq<Node<T>>, paths: seq<seq<T>>, c: nat)
    requires WellFormed(nodes, paths) && c < |nodes|
    ensures nodes[c].func.Some? <==> Taken(Registered(nodes), paths[c])
  {
    if nodes[c].func.Some? {
      assert LeafFits(nodes, paths, c);
      assert nodes[c].func.value in Registered(nodes);
    }
    if Taken(Registered(nodes), paths[c]) {
      var l :| l in Registered(nodes) && l.sig == paths[c];
      var q :| 0 <= q < |nodes| && nodes[q].func == Some(l);
      assert LeafFits(nodes, paths, q);
      PathsDistinct(nodes, paths, q, c);
    }
  }

  /** The leaves for the first k signatures. */
  ghost function LeavesFor<T>(f: Func, sigs: seq<seq<T>>, k: nat): set<Leaf<T>>
    requires k <= |sigs|
  {
    set i | 0 <= i < k :: Leaf(f, sigs[i])
  }

  predicate DistinctSigs<T(==)>(sigs: seq<seq<T>>) {
    forall i, j | 0 <= i < |sigs| && 0 <= j < |sigs| && i != j :: sigs[i] != sigs[j]
  }

  /** Registering distinct signatures of which the first k are free and the
    * next (if any) is taken installs exactly the first k and reports the next. */
  lemma {:induction false} InstallOutcome<T>(table: set<Leaf<T>>, f: Func, sigs: seq<seq<T>>, k: nat)
    requires k <= |sigs| && DistinctSigs(sigs)
    requires forall i | 0 <= i < k :: !Taken(table, sigs[i])
    requires k < |sigs| ==> Taken(table, sigs[k])
    ensures Install(table, f, sigs) == (table + LeavesFor(f, sigs, k), if k == |sigs| then None else Some(sigs[k]))
    decreases k
  {
    if k == 0 {
      assert LeavesFor(f, sigs, k) == {};
      assert table + LeavesFor(f, sigs, k) == table;
      if |sigs| > 0 {
        assert Taken(table, sigs[0]);
        assert Install(table, f, sigs) == (table, Some(sigs[0]));
      }
    } else {
      var table' := table + {Leaf(f, sigs[0])};
      var rest := sigs[1..];
      assert !Taken(table, sigs[0]);
      forall i | 0 <= i < k - 1
        ensures !Taken(table', rest[i])
      {
        assert rest[i] == sigs[i + 1] != sigs[0];
      }
      if k < |sigs| {
        assert rest[k - 1] == sigs[k];
      }
      assert DistinctSigs(rest) by {
        forall i, j | 0 <= i < |rest| && 0 <= j < |rest| && i != j
          ensures rest[i] != rest[j]
        {
          assert rest[i] == sigs[i + 1] && rest[j] == sigs[j + 1];
        }
      }
      assert Install(table, f, sigs) == Install(table', f, rest);
      InstallOutcome(table', f, rest, k - 1);
      assert {Leaf(f, sigs[0])} + LeavesFor(f, rest, k - 1) == LeavesFor(f, sigs, k) by {
        forall l | l in LeavesFor(f, sigs, k)
          ensures l in {Leaf(f, sigs[0])} + LeavesFor(f, rest, k - 1)
        {
          var i :| 0 <= i < k && l == Leaf(f, sigs[i]);
          if i > 0 {
            assert l == Leaf(f, rest[i - 1]);
          }
        }
        forall l | l in LeavesFor(f, rest, k - 1)
          ensures l in LeavesFor(f, sigs, k)
        {
          var i :| 0 <= i < k - 1 && l == Leaf(f, rest[i]);
          assert l == Leaf(f, sigs[i + 1]);
        }
      }
      assert table' + LeavesFor(f, rest, k - 1) == table + LeavesFor(f, sigs, k);
    }
  }

  /** Lengths that grow from each element to the next grow all along. */
  lemma {:induction false} LengthsIncrease<T>(sigs: seq<seq<T>>)
    requires forall j | 0 <= j < |sigs| - 1 :: |sigs[j]| < |sigs[j + 1]|
    ensures forall i, j | 0 <= i < j < |sigs| :: |sigs[i]| < |sigs[j]|
  {
    if |sigs| > 1 {
      var init := sigs[..|sigs| - 1];
      LengthsIncrease(init);
      forall i, j | 0 <= i < j < |sigs|
        ensures |sigs[i]| < |sigs[j]|
      {
        if j < |sigs| - 1 {
          assert init[i] == sigs[i] && init[j] == sigs[j];
        } else if i < j - 1 {
          assert init[i] == sigs[i] && init[j - 1] == sigs[j - 1];
        }
      }
    }
  }

  /** A function's signatures are distinct, so registering it clashes only
    * with functions registered before. */
  lemma SignaturesDistinct<A, T, V>(ts: TypeSystem<A, T, V>, params: seq<Param<A>>)
    ensures DistinctSigs(SignaturesOf(ts, params))
  {
    var sigs := SignaturesOf(ts, params);
    SignatureFamily(ts, params);
    LengthsIncrease(sigs);
    forall i, j | 0 <= i < |sigs| && 0 <= j < |sigs| && i != j
      ensures sigs[i] != sigs[j]
    {
      if i < j {
        assert |sigs[i]| < |sigs[j]|;
      } else {
        assert |sigs[j]| < |sigs[i]|;
      }
    }
  }

  /** `define_function` installs every signature of the function when none is
    * taken; otherwise it reports the first taken one, having installed the
    * ones before it. */
  lemma DefineOutcome<A, T, V>(ts: TypeSystem<A, T, V>, table: set<Leaf<T>>, f: Func, params: seq<Param<A>>)
    ensures var sigs := SignaturesOf(ts, params);
      (forall i | 0 <= i < |sigs| :: !Taken(table, sigs[i])) ==>
        Install(table, f, sigs) == (table + LeavesFor(f, sigs, |sigs|), None)
    ensures var sigs := SignaturesOf(ts, params);
      forall k | 0 <= k < |sigs| && Taken(table, sigs[k]) && (forall i | 0 <= i < k :: !Taken(table, sigs[i])) ::
        Install(table, f, sigs) == (table + LeavesFor(f, sigs, k), Some(sigs[k]))
  {
    var sigs := SignaturesOf(ts, params);
    SignaturesDistinct(ts, params);
    if forall i | 0 <= i < |sigs| :: !Taken(table, sigs[i]) {
      InstallOutcome(table, f, sigs, |sigs|);
    }
    forall k | 0 <= k < |sigs| && Taken(table, sigs[k]) && (forall i | 0 <= i < k :: !Taken(table, sigs[i]))
      ensures Install(table, f, sigs) == (table + LeavesFor(f, sigs, k), Some(sigs[k]))
    {
      InstallOutcome(table, f, sigs, k);
    }
  }
}
