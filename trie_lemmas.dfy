/** What a lookup in a well-formed dispatch trie reaches. */
module TrieLemmas {
  import opened Values
  import opened TypeSystems
  import opened Resolver
  import opened ResolverLemmas
  import opened DispatchTrie

  lemma NoDupConcat(s: seq<nat>, t: seq<nat>)
    requires NoDup(s) && NoDup(t)
    requires forall x | x in s :: x !in t
    ensures NoDup(s + t)
  {
    forall i, j | 0 <= i < j < |s + t|
      ensures (s + t)[i] != (s + t)[j]
    {
      if i < |s| && |s| <= j {
        assert (s + t)[i] in s && (s + t)[j] in t;
      }
    }
  }

  /** `follow_arg` yields exactly the children whose edge type admits the argument. */
  lemma {:induction false} FollowMembers<A, T, V>(ts: TypeSystem<A, T, V>, edges: seq<(T, nat)>, a: V, n: nat)
    requires n <= |edges|
    ensures forall c :: c in Follow(ts, edges, a, n) <==>
      exists e | 0 <= e < n :: edges[e].1 == c && ts.isInstance(a, edges[e].0)
  {
    if n > 0 {
      FollowMembers(ts, edges, a, n - 1);
    }
  }

  lemma {:induction false} FollowNoDup<A, T, V>(ts: TypeSystem<A, T, V>, edges: seq<(T, nat)>, a: V, n: nat)
    requires n <= |edges|
    requires forall e1, e2 | 0 <= e1 < e2 < n :: edges[e1].1 != edges[e2].1
    ensures NoDup(Follow(ts, edges, a, n))
  {
    if n > 0 {
      FollowNoDup(ts, edges, a, n - 1);
      FollowMembers(ts, edges, a, n - 1);
      NoDupConcat(Follow(ts, edges, a, n - 1), if ts.isInstance(a, edges[n - 1].0) then [edges[n - 1].1] else []);
    }
  }

  /** A step reaches exactly the children, of some active node, whose edge
    * type admits the argument. */
  lemma {:induction false} StepMembers<A, T, V>(ts: TypeSystem<A, T, V>, nodes: seq<Node<T>>, frontier: seq<nat>, a: V, n: nat)
    requires n <= |frontier|
    ensures forall c :: c in Step(ts, nodes, frontier, a, n) <==>
      exists j, e | 0 <= j < n && 0 <= e < |EdgesOf(nodes, frontier[j])| ::
        EdgesOf(nodes, frontier[j])[e].1 == c && ts.isInstance(a, EdgesOf(nodes, frontier[j])[e].0)
  {
    if n > 0 {
      StepMembers(ts, nodes, frontier, a, n - 1);
      var edges := EdgesOf(nodes, frontier[n - 1]);
      FollowMembers(ts, edges, a, |edges|);
    }
  }

  /** In a well-formed trie a node hangs off one edge only. */
  lemma UniqueParent<T>(nodes: seq<Node<T>>, paths: seq<seq<T>>, p1: nat, e1: nat, p2: nat, e2: nat)
    requires WellFormed(nodes, paths)
    requires p1 < |nodes| && e1 < |nodes[p1].edges| && p2 < |nodes| && e2 < |nodes[p2].edges|
    requires nodes[p1].edges[e1].1 == nodes[p2].edges[e2].1
    ensures p1 == p2 && e1 == e2
  {
    var c := nodes[p1].edges[e1].1;
    assert EdgeFits(nodes, paths, p1, e1) && EdgeFits(nodes, paths, p2, e2);
    assert paths[c] == paths[p1] + [nodes[p1].edges[e1].0] == paths[p2] + [nodes[p2].edges[e2].0];
    assert paths[p1] == paths[c][..|paths[c]| - 1] == paths[p2];
    PathsDistinct(nodes, paths, p1, p2);
    assert EdgeType(nodes, p1, e1) == EdgeType(nodes, p2, e2);
  }

  /** Distinct nodes have distinct paths. */
  lemma PathsDistinct<T>(nodes: seq<Node<T>>, paths: seq<seq<T>>, c1: nat, c2: nat)
    requires WellFormed(nodes, paths) && c1 < |nodes| && c2 < |nodes|
    ensures c1 == c2 <==> paths[c1] == paths[c2]
  {
    assert c1 != c2 ==> PathsDiffer(paths, c1, c2);
  }

  /** The edges of one node lead to distinct children. */
  lemma ChildrenDistinct<T>(nodes: seq<Node<T>>, paths: seq<seq<T>>, p: nat)
    requires WellFormed(nodes, paths) && p < |nodes|
    ensures forall e1, e2 | 0 <= e1 < e2 < |nodes[p].edges| :: nodes[p].edges[e1].1 != nodes[p].edges[e2].1
  {
    forall e1, e2 | 0 <= e1 < e2 < |nodes[p].edges|
      ensures nodes[p].edges[e1].1 != nodes[p].edges[e2].1
    {
      if nodes[p].edges[e1].1 == nodes[p].edges[e2].1 {
        UniqueParent(nodes, paths, p, e1, p, e2);
      }
    }
  }

  /** What the first m active nodes reach, the next one does not. */
  lemma StepDisjoint<A, T, V>(ts: TypeSystem<A, T, V>, nodes: seq<Node<T>>, paths: seq<seq<T>>, frontier: seq<nat>, a: V, m: nat)
    requires WellFormed(nodes, paths) && m < |frontier|
    requires NoDup(frontier) && forall j | 0 <= j < |frontier| :: frontier[j] < |nodes|
    ensures forall x | x in Step(ts, nodes, frontier, a, m) ::
      x !in Follow(ts, nodes[frontier[m]].edges, a, |nodes[frontier[m]].edges|)
  {
    var p := frontier[m];
    var edges := nodes[p].edges;
    StepMembers(ts, nodes, frontier, a, m);
    FollowMembers(ts, edges, a, |edges|);
    forall x | x in Step(ts, nodes, frontier, a, m)
      ensures x !in Follow(ts, edges, a, |edges|)
    {
      var j, e :| 0 <= j < m && 0 <= e < |EdgesOf(nodes, frontier[j])| && EdgesOf(nodes, frontier[j])[e].1 == x;
      if x in Follow(ts, edges, a, |edges|) {
        var e' :| 0 <= e' < |edges| && edges[e'].1 == x;
        UniqueParent(nodes, paths, frontier[j], e, p, e');
      }
    }
  }

  /** Distinct active nodes have distinct children, so a step repeats no node. */
  lemma {:induction false} StepNoDup<A, T, V>(ts: TypeSystem<A, T, V>, nodes: seq<Node<T>>, paths: seq<seq<T>>, frontier: seq<nat>, a: V, n: nat)
    requires WellFormed(nodes, paths) && n <= |frontier|
    requires NoDup(frontier) && forall j | 0 <= j < |frontier| :: frontier[j] < |nodes|
    ensures NoDup(Step(ts, nodes, frontier, a, n))
  {
    if n > 0 {
      StepNoDup(ts, nodes, paths, frontier, a, n - 1);
      var p := frontier[n - 1];
      var edges := nodes[p].edges;
      assert EdgesOf(nodes, p) == edges;
      ChildrenDistinct(nodes, paths, p);
      FollowNoDup(ts, edges, a, |edges|);
      StepDisjoint(ts, nodes, paths, frontier, a, n - 1);
      NoDupConcat(Step(ts, nodes, frontier, a, n - 1), Follow(ts, edges, a, |edges|));
    }
  }

  /** The active nodes after k arguments are exactly the nodes whose path
    * admits those arguments, each once: lookup misses no registered path and
    * reaches nothing else. */
  lemma {:induction false} ReachExact<A, T, V>(ts: TypeSystem<A, T, V>, nodes: seq<Node<T>>, paths: seq<seq<T>>, args: seq<V>, k: nat)
    requires WellFormed(nodes, paths) && k <= |args|
    ensures forall c: nat :: c in Reach(ts, nodes, args, k) <==> c < |paths| && Admits(ts, args, k, paths[c])
    ensures NoDup(Reach(ts, nodes, args, k))
  {
    if k == 0 {
      forall c: nat | c < |paths| && Admits(ts, args, 0, paths[c])
        ensures c == 0
      {
        PathsDistinct(nodes, paths, c, 0);
      }
    } else {
      var frontier := Reach(ts, nodes, args, k - 1);
      ReachExact(ts, nodes, paths, args, k - 1);
      assert forall j | 0 <= j < |frontier| :: frontier[j] in frontier;
      StepNoDup(ts, nodes, paths, frontier, args[k - 1], |frontier|);
      ReachStepSound(ts, nodes, paths, args, k, frontier);
      ReachStepComplete(ts, nodes, paths, args, k, frontier);
    }
  }

  /** A node reached for argument k hangs off an active node by an edge whose
    * type admits the argument, so its path admits the first k arguments. */
  lemma ReachStepSound<A, T, V>(ts: TypeSystem<A, T, V>, nodes: seq<Node<T>>, paths: seq<seq<T>>, args: seq<V>, k: nat, frontier: seq<nat>)
    requires WellFormed(nodes, paths) && 0 < k <= |args|
    requires frontier == Reach(ts, nodes, args, k - 1)
    requires forall c: nat :: c in frontier ==> c < |paths| && Admits(ts, args, k - 1, paths[c])
    ensures forall c: nat :: c in Reach(ts, nodes, args, k) ==> c < |paths| && Admits(ts, args, k, paths[c])
  {
    StepMembers(ts, nodes, frontier, args[k - 1], |frontier|);
    forall c: nat | c in Reach(ts, nodes, args, k)
      ensures c < |paths| && Admits(ts, args, k, paths[c])
    {
      var j, e :| 0 <= j < |frontier| && 0 <= e < |EdgesOf(nodes, frontier[j])| &&
        EdgesOf(nodes, frontier[j])[e].1 == c && ts.isInstance(args[k - 1], EdgesOf(nodes, frontier[j])[e].0);
      var p := frontier[j];
      assert p in frontier;
      ChildAdmits(ts, nodes, paths, args, k, p, e);
    }
  }

  /** Following an edge whose type admits argument k - 1 from a node whose
    * path admits the first k - 1 arguments gives a path that admits k. */
  lemma ChildAdmits<A, T, V>(ts: TypeSystem<A, T, V>, nodes: seq<Node<T>>, paths: seq<seq<T>>, args: seq<V>, k: nat, p: nat, e: nat)
    requires WellFormed(nodes, paths) && 0 < k <= |args|
    requires p < |paths| && Admits(ts, args, k - 1, paths[p])
    requires e < |EdgesOf(nodes, p)| && ts.isInstance(args[k - 1], EdgesOf(nodes, p)[e].0)
    ensures EdgesOf(nodes, p)[e].1 < |paths| && Admits(ts, args, k, paths[EdgesOf(nodes, p)[e].1])
  {
    assert EdgesOf(nodes, p) == nodes[p].edges;
    assert EdgeFits(nodes, paths, p, e);
  }

  /** A node whose path admits the first k - 1 arguments hangs off a node whose
    * path admits the first k - 1, which is active, so the node is reached. */
  lemma ReachStepComplete<A, T, V>(ts: TypeSystem<A, T, V>, nodes: seq<Node<T>>, paths: seq<seq<T>>, args: seq<V>, k: nat, frontier: seq<nat>)
    requires WellFormed(nodes, paths) && 0 < k <= |args|
    requires frontier == Reach(ts, nodes, args, k - 1)
    requires forall c: nat :: c < |paths| && Admits(ts, args, k - 1, paths[c]) ==> c in frontier
    ensures forall c: nat :: c < |paths| && Admits(ts, args, k, paths[c]) ==> c in Reach(ts, nodes, args, k)
  {
    StepMembers(ts, nodes, frontier, args[k - 1], |frontier|);
    forall c: nat | c < |paths| && Admits(ts, args, k, paths[c])
      ensures c in Reach(ts, nodes, args, k)
    {
      var p, e := ParentAdmits(ts, nodes, paths, args, k, c);
      assert p in frontier;
      var j :| 0 <= j < |frontier| && frontier[j] == p;
      assert EdgesOf(nodes, frontier[j])[e].1 == c;
    }
  }

  /** The parent of a node whose path admits k arguments admits the first
    * k - 1, by an edge whose type admits the last. */
  lemma ParentAdmits<A, T, V>(ts: TypeSystem<A, T, V>, nodes: seq<Node<T>>, paths: seq<seq<T>>, args: seq<V>, k: nat, c: nat)
    returns (p: nat, e: nat)
    requires WellFormed(nodes, paths) && 0 < k <= |args|
    requires c < |paths| && Admits(ts, args, k, paths[c])
    ensures p < |paths| && Admits(ts, args, k - 1, paths[p])
    ensures e < |EdgesOf(nodes, p)| && EdgesOf(nodes, p)[e].1 == c
    ensures ts.isInstance(args[k - 1], EdgesOf(nodes, p)[e].0)
  {
    assert c != 0;
    assert HasParent(nodes, c);
    p, e :| 0 <= p < c && 0 <= e < |nodes[p].edges| && nodes[p].edges[e].1 == c;
    assert EdgesOf(nodes, p) == nodes[p].edges;
    assert EdgeFits(nodes, paths, p, e);
    assert paths[c][k - 1] == nodes[p].edges[e].0;
    forall i | 0 <= i < k - 1
      ensures ts.isInstance(args[i], paths[p][i])
    {
      assert paths[p][i] == paths[c][i];
    }
  }

  lemma {:induction false} CandidatesMembers<T>(nodes: seq<Node<T>>, reached: seq<nat>, n: nat)
    requires n <= |reached|
    ensures forall l :: l in Candidates(nodes, reached, n) <==>
      exists j | 0 <= j < n :: FuncOf(nodes, reached[j]) == Some(l)
  {
    if n > 0 {
      CandidatesMembers(nodes, reached, n - 1);
    }
  }

  /** The node a candidate comes from. */
  lemma {:induction false} CandidateSource<T>(nodes: seq<Node<T>>, reached: seq<nat>, n: nat, i: nat) returns (j: nat)
    requires n <= |reached| && i < |Candidates(nodes, reached, n)|
    ensures j < n && FuncOf(nodes, reached[j]) == Some(Candidates(nodes, reached, n)[i])
  {
    if i < |Candidates(nodes, reached, n - 1)| {
      j := CandidateSource(nodes, reached, n - 1, i);
    } else {
      j := n - 1;
    }
  }

  /** Leaves at distinct nodes have distinct signatures. */
  lemma {:induction false} CandidatesDistinct<T>(nodes: seq<Node<T>>, paths: seq<seq<T>>, reached: seq<nat>, n: nat)
    requires WellFormed(nodes, paths) && n <= |reached|
    requires NoDup(reached) && forall j | 0 <= j < |reached| :: reached[j] < |nodes|
    ensures DistinctSignatures(Candidates(nodes, reached, n))
  {
    if n > 0 {
      CandidatesDistinct(nodes, paths, reached, n - 1);
      CandidatesMembers(nodes, reached, n - 1);
      var before := Candidates(nodes, reached, n - 1);
      var c := reached[n - 1];
      if nodes[c].func.Some? {
        var l := nodes[c].func.value;
        forall i | 0 <= i < |before|
          ensures before[i].sig != l.sig
        {
          var j := CandidateSource(nodes, reached, n - 1, i);
          var c' := reached[j];
          assert c' != c;
          assert LeafFits(nodes, paths, c) && LeafFits(nodes, paths, c');
          PathsDistinct(nodes, paths, c, c');
        }
        assert Candidates(nodes, reached, n) == before + [l];
      }
    }
  }

  /** The leaves a call reaches are exactly the registered leaves whose
    * signature admits the arguments; their signatures are distinct and as
    * long as the argument list. */
  lemma MatchingExact<A, T, V>(ts: TypeSystem<A, T, V>, nodes: seq<Node<T>>, paths: seq<seq<T>>, args: seq<V>)
    requires WellFormed(nodes, paths)
    ensures forall i | 0 <= i < |Matching(ts, nodes, args)| ::
      Matching(ts, nodes, args)[i] in Registered(nodes) && Admits(ts, args, |args|, Matching(ts, nodes, args)[i].sig)
    ensures forall l | l in Registered(nodes) && Admits(ts, args, |args|, l.sig) :: l in Matching(ts, nodes, args)
    ensures SameLength(Matching(ts, nodes, args)) && DistinctSignatures(Matching(ts, nodes, args))
    ensures forall i | 0 <= i < |Matching(ts, nodes, args)| :: |Matching(ts, nodes, args)[i].sig| == |args|
  {
    var reached := Reach(ts, nodes, args, |args|);
    ReachExact(ts, nodes, paths, args, |args|);
    assert forall j | 0 <= j < |reached| :: reached[j] in reached;
    CandidatesMembers(nodes, reached, |reached|);
    CandidatesDistinct(nodes, paths, reached, |reached|);
    var cands := Matching(ts, nodes, args);
    forall i | 0 <= i < |cands|
      ensures cands[i] in Registered(nodes) && Admits(ts, args, |args|, cands[i].sig)
    {
      var j := CandidateSource(nodes, reached, |reached|, i);
      assert reached[j] in reached;
      assert LeafFits(nodes, paths, reached[j]);
    }
    forall l | l in Registered(nodes) && Admits(ts, args, |args|, l.sig)
      ensures l in cands
    {
      var c :| 0 <= c < |nodes| && nodes[c].func == Some(l);
      assert LeafFits(nodes, paths, c);
      assert c in reached;
      var j :| 0 <= j < |reached| && reached[j] == c;
      assert FuncOf(nodes, reached[j]) == Some(l);
    }
    forall i | 0 <= i < |cands|
      ensures |cands[i].sig| == |args|
    {
      assert cands[i] in cands;
    }
  }

  /** `find_function` on a well-formed trie: no match exactly when no
    * registered signature admits the arguments; a single admitting signature
    * is returned; whatever is returned was registered under an admitting
    * signature; and the resolver only ever fails by an ambiguity, never by
    * one of its internal errors. */
  lemma DispatchOutcomes<A, T, V>(ts: TypeSystem<A, T, V>, nodes: seq<Node<T>>, paths: seq<seq<T>>, args: seq<V>)
    requires WellFormed(nodes, paths)
    ensures Dispatch(ts, nodes, args) == NotFound <==>
      forall l | l in Registered(nodes) :: !Admits(ts, args, |args|, l.sig)
    ensures forall l | l in Registered(nodes) && Admits(ts, args, |args|, l.sig) ::
      (forall l2 | l2 in Registered(nodes) && Admits(ts, args, |args|, l2.sig) :: l2 == l) ==>
        Dispatch(ts, nodes, args) == Found(l.f)
    ensures Dispatch(ts, nodes, args).Found? ==>
      exists l | l in Registered(nodes) && Admits(ts, args, |args|, l.sig) :: l.f == Dispatch(ts, nodes, args).f
    ensures Dispatch(ts, nodes, args).Unresolved? ==> Dispatch(ts, nodes, args).outcome == Ambiguous
  {
    var cands := Matching(ts, nodes, args);
    MatchingExact(ts, nodes, paths, args);
    assert |cands| > 1 ==> cands[0].sig != cands[1].sig;
    if |cands| > 0 {
      assert cands[0] in Registered(nodes) && Admits(ts, args, |args|, cands[0].sig);
      assert Dispatch(ts, nodes, args) != NotFound;
    } else {
      assert Dispatch(ts, nodes, args) == NotFound;
    }
    forall l | l in Registered(nodes) && Admits(ts, args, |args|, l.sig) &&
        (forall l2 | l2 in Registered(nodes) && Admits(ts, args, |args|, l2.sig) :: l2 == l)
      ensures Dispatch(ts, nodes, args) == Found(l.f)
    {
      assert l in cands;
      assert cands[0] == l;
    }
    if |cands| > 1 {
      ResolverDecides(ts, cands);
      var o := Resolve(ts, cands);
      if o.Chosen? {
        assert o.leaf in cands;
      }
    }
  }
}
