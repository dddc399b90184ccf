/** What the specificity resolver guarantees. */
module ResolverLemmas {
  import opened TypeSystems
  import opened Resolver

  /** a is strictly more specific than b. */
  predicate StrictlyBelow<A, T(==), V>(ts: TypeSystem<A, T, V>, a: T, b: T) {
    Below(ts, a, b) && !Below(ts, b, a)
  }

  /** When `issubclass` is transitive, every column has a minimal index, so the
    * most specific index is a minimal one. */
  lemma {:induction false} MinimalExists<A, T, V>(ts: TypeSystem<A, T, V>, ps: seq<T>)
    requires |ps| > 0
    requires forall a, b, c :: ts.isSubclass(a, b) && ts.isSubclass(b, c) ==> ts.isSubclass(a, c)
    ensures exists i | 0 <= i < |ps| :: Minimal(ts, ps, i)
    ensures Minimal(ts, ps, FirstMinimal(ts, ps, 0))
  {
    if |ps| == 1 {
      assert Minimal(ts, ps, 0);
    } else {
      var init := ps[..|ps| - 1];
      MinimalExists(ts, init);
      var m :| 0 <= m < |init| && Minimal(ts, init, m);
      var x := ps[|ps| - 1];
      assert forall k | 0 <= k < |init| :: ps[k] == init[k];
      if Below(ts, x, ps[m]) && !Below(ts, ps[m], x) {
        // x is below the minimal element of the rest, so nothing is below x
        forall k | 0 <= k < |init| && Below(ts, ps[k], x)
          ensures false
        {
          assert Below(ts, ps[k], ps[m]);
        }
        assert Minimal(ts, ps, |ps| - 1);
      } else {
        assert Minimal(ts, ps, m);
      }
    }
  }

  /** In a column where one index is, against every other, either equal or
    * strictly more specific, that index wins and the indices with another type
    * do not. */
  lemma ColumnDominated<A, T, V>(ts: TypeSystem<A, T, V>, ps: seq<T>, d: nat)
    requires d < |ps|
    requires forall k | 0 <= k < |ps| :: ps[k] == ps[d] || StrictlyBelow(ts, ps[d], ps[k])
    ensures d in WinningSet(ts, ps)
    ensures forall k | 0 <= k < |ps| && ps[k] != ps[d] :: k !in WinningSet(ts, ps)
  {
    assert Minimal(ts, ps, d);
    var m := FirstMinimal(ts, ps, 0);
    assert Minimal(ts, ps, m);
    assert ps[m] == ps[d];
  }

  /** The winning set of each column that does not all agree is one of the sets. */
  lemma ColumnSetIn<A, T, V>(ts: TypeSystem<A, T, V>, cands: seq<Leaf<T>>, j: nat, c: nat)
    requires |cands| > 0 && c < j <= Width(cands) && !AllEq(Column(cands, c))
    ensures WinningSet(ts, Column(cands, c)) in WinningSets(ts, cands, j)
  {
    var k := DifferingIndex(cands, j, c);
    assert WinningSets(ts, cands, j)[k] == WinningSet(ts, Column(cands, c));
  }

  /** Every column that does not all agree is among the differing columns. */
  lemma {:induction false} DifferingIndex<T>(cands: seq<Leaf<T>>, j: nat, c: nat) returns (k: nat)
    requires |cands| > 0 && c < j <= Width(cands) && !AllEq(Column(cands, c))
    ensures k < |DifferingColumns(cands, j)| && DifferingColumns(cands, j)[k] == c
  {
    var prev := DifferingColumns(cands, j - 1);
    if c < j - 1 {
      k := DifferingIndex(cands, j - 1, c);
      assert DifferingColumns(cands, j)[k] == prev[k];
    } else {
      k := |prev|;
    }
  }

  /** An index in the winning set of every column is in every one of the sets. */
  lemma InAllSets<A, T, V>(ts: TypeSystem<A, T, V>, cands: seq<Leaf<T>>, j: nat, x: nat)
    requires |cands| > 0 && j <= Width(cands)
    requires forall c | 0 <= c < j :: x in WinningSet(ts, Column(cands, c))
    ensures forall k | 0 <= k < |WinningSets(ts, cands, j)| :: x in WinningSets(ts, cands, j)[k]
  {
    var cs := DifferingColumns(cands, j);
    forall k | 0 <= k < |WinningSets(ts, cands, j)| ensures x in WinningSets(ts, cands, j)[k] {
      assert WinningSets(ts, cands, j)[k] == WinningSet(ts, Column(cands, cs[k]));
    }
  }

  /** Signatures of equal length, as the leaves one lookup reaches. */
  predicate SameLength<T>(cands: seq<Leaf<T>>) {
    forall i, k | 0 <= i < |cands| && 0 <= k < |cands| :: |cands[i].sig| == |cands[k].sig|
  }

  predicate DistinctSignatures<T(==)>(cands: seq<Leaf<T>>) {
    forall i, k | 0 <= i < |cands| && 0 <= k < |cands| && i != k :: cands[i].sig != cands[k].sig
  }

  /** Candidate d is, in every parameter and against every other candidate,
    * of equal or strictly more specific type. */
  predicate Dominates<A, T(==), V>(ts: TypeSystem<A, T, V>, cands: seq<Leaf<T>>, d: nat)
    requires d < |cands| && SameLength(cands)
  {
    forall k, j | 0 <= k < |cands| && 0 <= j < |cands[d].sig| ::
      cands[k].sig[j] == cands[d].sig[j] || StrictlyBelow(ts, cands[d].sig[j], cands[k].sig[j])
  }

  /** Candidate k's type in parameter c differs from d's, so the column's set excludes k. */
  predicate ExcludedAt<A, T(==), V>(ts: TypeSystem<A, T, V>, cands: seq<Leaf<T>>, k: nat, c: nat)
    requires |cands| > 0 && c < Width(cands)
  {
    !AllEq(Column(cands, c)) && k !in WinningSet(ts, Column(cands, c))
  }

  /** The most specific candidate wins, whatever the priorities. */
  lemma MostSpecificWins<A, T, V>(ts: TypeSystem<A, T, V>, cands: seq<Leaf<T>>, d: nat)
    requires |cands| > 1 && d < |cands|
    requires SameLength(cands) && DistinctSignatures(cands)
    requires Dominates(ts, cands, d)
    ensures Resolve(ts, cands) == Chosen(cands[d])
  {
    var sets := WinningSets(ts, cands, Width(cands));
    DominatingInAll(ts, cands, d);
    var k0 := if d == 0 then 1 else 0;
    var c0 := DifferingColumn(ts, cands, d, k0);
    ColumnSetIn(ts, cands, Width(cands), c0);
    assert |sets| > 0;
    OnlyDominatingInAll(ts, cands, d);
    DecideSingleton(cands, sets, d);
  }

  /** The dominating candidate is in every winning set. */
  lemma DominatingInAll<A, T, V>(ts: TypeSystem<A, T, V>, cands: seq<Leaf<T>>, d: nat)
    requires |cands| > 1 && d < |cands|
    requires SameLength(cands) && Dominates(ts, cands, d)
    ensures var sets := WinningSets(ts, cands, Width(cands));
      forall k | 0 <= k < |sets| :: d in sets[k]
  {
    var w := Width(cands);
    WidthAttained(cands);
    assert w == |cands[d].sig|;
    forall c | 0 <= c < w
      ensures d in WinningSet(ts, Column(cands, c))
    {
      ColumnDominated(ts, Column(cands, c), d);
    }
    InAllSets(ts, cands, w, d);
  }

  /** No other candidate is in every winning set, so their intersection is {d}. */
  lemma OnlyDominatingInAll<A, T, V>(ts: TypeSystem<A, T, V>, cands: seq<Leaf<T>>, d: nat)
    requires |cands| > 1 && d < |cands|
    requires SameLength(cands) && DistinctSignatures(cands) && Dominates(ts, cands, d)
    requires var sets := WinningSets(ts, cands, Width(cands));
      |sets| > 0 && forall k | 0 <= k < |sets| :: d in sets[k]
    ensures Intersection(WinningSets(ts, cands, Width(cands))) == {d}
  {
    var sets := WinningSets(ts, cands, Width(cands));
    var inter := Intersection(sets);
    forall q | q in inter ensures q == d {
      if q != d {
        var c := DifferingColumn(ts, cands, d, q);
        ColumnSetIn(ts, cands, Width(cands), c);
      }
    }
  }

  /** A column where candidate k's type differs from the dominating d's; there
    * k loses. */
  lemma DifferingColumn<A, T, V>(ts: TypeSystem<A, T, V>, cands: seq<Leaf<T>>, d: nat, k: nat) returns (c: nat)
    requires |cands| > 1 && d < |cands| && k < |cands| && k != d
    requires SameLength(cands) && DistinctSignatures(cands)
    requires Dominates(ts, cands, d)
    ensures c < Width(cands) && ExcludedAt(ts, cands, k, c)
  {
    WidthAttained(cands);
    assert Width(cands) == |cands[d].sig|;
    c :| 0 <= c < |cands[d].sig| && cands[k].sig[c] != cands[d].sig[c];
    var col := Column(cands, c);
    assert col[k] != col[d];
    ColumnDominated(ts, col, d);
  }

  /** With a single column telling them apart each way round, two candidates
    * are ambiguous unless one has the higher priority. */
  lemma CrossedCandidates<A, T, V>(ts: TypeSystem<A, T, V>, cands: seq<Leaf<T>>, j1: nat, j2: nat)
    requires |cands| == 2 && j1 < Width(cands) && j2 < Width(cands)
    requires StrictlyBelow(ts, cands[0].sig[j1], cands[1].sig[j1])
    requires StrictlyBelow(ts, cands[1].sig[j2], cands[0].sig[j2])
    ensures cands[0].f.priority == cands[1].f.priority ==> Resolve(ts, cands) == Ambiguous
    ensures cands[0].f.priority > cands[1].f.priority ==> Resolve(ts, cands) == Chosen(cands[0])
    ensures cands[1].f.priority > cands[0].f.priority ==> Resolve(ts, cands) == Chosen(cands[1])
  {
    var sets := WinningSets(ts, cands, Width(cands));
    CrossedSets(ts, cands, j1, j2);
    SetsOfTwo(sets);
    DecideOfTwo(cands, sets);
  }

  /** The two crossing columns give the sets {0} and {1}. */
  lemma CrossedSets<A, T, V>(ts: TypeSystem<A, T, V>, cands: seq<Leaf<T>>, j1: nat, j2: nat)
    requires |cands| == 2 && j1 < Width(cands) && j2 < Width(cands)
    requires StrictlyBelow(ts, cands[0].sig[j1], cands[1].sig[j1])
    requires StrictlyBelow(ts, cands[1].sig[j2], cands[0].sig[j2])
    ensures {0} in WinningSets(ts, cands, Width(cands)) && {1} in WinningSets(ts, cands, Width(cands))
  {
    var w := Width(cands);
    LoneWinner(ts, Column(cands, j1), 0);
    LoneWinner(ts, Column(cands, j2), 1);
    ColumnSetIn(ts, cands, w, j1);
    ColumnSetIn(ts, cands, w, j2);
  }

  /** In a column of two, the strictly more specific type wins alone. */
  lemma LoneWinner<A, T, V>(ts: TypeSystem<A, T, V>, ps: seq<T>, d: nat)
    requires |ps| == 2 && d < 2 && StrictlyBelow(ts, ps[d], ps[1 - d])
    ensures WinningSet(ts, ps) == {d} && !AllEq(ps)
  {
    ColumnDominated(ts, ps, d);
    assert ps[0] != ps[1];
  }

  /** Over two candidates, disjoint sets leave the decision to the priorities. */
  lemma DecideOfTwo<T>(cands: seq<Leaf<T>>, sets: seq<set<nat>>)
    requires |cands| == 2 && WellFormedSets(cands, sets) && |sets| > 0
    requires Intersection(sets) == {} && Union(sets) == {0, 1}
    ensures cands[0].f.priority == cands[1].f.priority ==> Decide(cands, sets) == Ambiguous
    ensures cands[0].f.priority > cands[1].f.priority ==> Decide(cands, sets) == Chosen(cands[0])
    ensures cands[1].f.priority > cands[0].f.priority ==> Decide(cands, sets) == Chosen(cands[1])
  {
    assert |Union(sets)| == 2;
    PriorityOfTwo(cands);
  }

  /** Winning sets over two candidates that include {0} and {1} have nothing in
    * common and together hold both. */
  lemma SetsOfTwo(sets: seq<set<nat>>)
    requires {0} in sets && {1} in sets
    requires forall k | 0 <= k < |sets| :: forall i | i in sets[k] :: i < 2
    ensures Intersection(sets) == {} && Union(sets) == {0, 1}
  {
    var k1 :| 0 <= k1 < |sets| && sets[k1] == {0};
    var k2 :| 0 <= k2 < |sets| && sets[k2] == {1};
    var inter := Intersection(sets);
    assert forall q | q in inter :: q in sets[k1] && q in sets[k2];
    var amb := Union(sets);
    assert 0 in amb && 1 in amb;
  }

  /** Between two candidates the priorities decide, and a tie is an ambiguity. */
  lemma PriorityOfTwo<T>(cands: seq<Leaf<T>>)
    requires |cands| == 2
    ensures cands[0].f.priority == cands[1].f.priority ==> PriorityPick(cands, {0, 1}) == Ambiguous
    ensures cands[0].f.priority > cands[1].f.priority ==> PriorityPick(cands, {0, 1}) == Chosen(cands[0])
    ensures cands[1].f.priority > cands[0].f.priority ==> PriorityPick(cands, {0, 1}) == Chosen(cands[1])
  {
    var amb: set<nat> := {0, 1};
    if cands[0].f.priority == cands[1].f.priority {
      assert !StrictTop(cands, amb, 0) && !StrictTop(cands, amb, 1);
    } else {
      var top := if cands[0].f.priority > cands[1].f.priority then 0 else 1;
      assert StrictTop(cands, amb, top);
      var i :| i in amb && StrictTop(cands, amb, i) && PriorityPick(cands, amb) == Chosen(cands[i]);
      StrictTopUnique(cands, amb, i, top);
    }
  }

  /** Candidates with distinct signatures of one length always reach a
    * decision: a choice or an ambiguity, never one of Python's own errors. */
  lemma ResolverDecides<A, T, V>(ts: TypeSystem<A, T, V>, cands: seq<Leaf<T>>)
    requires |cands| > 1 && SameLength(cands) && DistinctSignatures(cands)
    ensures Resolve(ts, cands).Chosen? || Resolve(ts, cands) == Ambiguous
  {
    var w := Width(cands);
    WidthAttained(cands);
    assert w == |cands[0].sig|;
    var sets := WinningSets(ts, cands, w);
    var c :| 0 <= c < w && cands[0].sig[c] != cands[1].sig[c];
    assert Column(cands, c)[0] != Column(cands, c)[1];
    ColumnSetIn(ts, cands, w, c);
    DecideOfSome(cands, sets);
  }

  /** With at least one set, the decision is a choice or an ambiguity. */
  lemma DecideOfSome<T>(cands: seq<Leaf<T>>, sets: seq<set<nat>>)
    requires WellFormedSets(cands, sets) && |sets| > 0
    ensures Decide(cands, sets).Chosen? || Decide(cands, sets) == Ambiguous
  {
    UnionOfOne(sets);
  }

  /** Non-empty sets whose union has at most one element are all that one
    * singleton, and so is their intersection. */
  lemma UnionOfOne(sets: seq<set<nat>>)
    requires |sets| > 0 && forall k | 0 <= k < |sets| :: sets[k] != {}
    ensures |Union(sets)| < 2 ==> |Intersection(sets)| == 1
  {
    var amb := Union(sets);
    if |amb| >= 2 {
      return;
    }
    var m :| m in sets[0];
    forall q | q in amb ensures q == m {
      if q != m {
        assert {q, m} <= amb;
        SubsetCard({q, m}, amb);
      }
    }
    assert amb == {m};
    forall k | 0 <= k < |sets| ensures sets[k] == {m} {
      var y :| y in sets[k];
      assert y in amb;
      assert forall z | z in sets[k] :: z in amb;
    }
    assert Intersection(sets) == {m};
  }

  lemma SubsetCard(a: set<nat>, b: set<nat>)
    requires a <= b
    ensures |a| <= |b|
  {
    if a != {} {
      var x :| x in a;
      SubsetCard(a - {x}, b - {x});
    }
  }
}
