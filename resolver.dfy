/**
 * `choose_most_specific_function`: when several registered functions match a
 * call, pick the one whose parameter types are the most specific, column by
 * column, and fall back on the functions' priorities.
 */
module Resolver {
  import opened TypeSystems

  /** A registered function: its identity and its `__dispatch_priority__`
    * (0 unless set through `MultiDispatch(priority=...)`). */
  datatype Func = Func(id: nat, priority: int)

  /** A trie leaf: the function and the signature it was registered under. */
  datatype Leaf<T> = Leaf(f: Func, sig: seq<T>)

  /** How the resolver ends: a choice, a `DispatchError` for an ambiguity, or
    * the exceptions Python raises when no column tells the candidates apart
    * (`set.intersection()` without arguments) or the ambiguity assertion fails. */
  datatype Outcome<T> = Chosen(leaf: Leaf<T>) | Ambiguous | NoDifferingColumn | TooFewAmbiguous

  /** `zip(*sigs)` stops at the shortest signature. */
  function Width<T>(cands: seq<Leaf<T>>): (w: nat)
    requires |cands| > 0
    ensures forall i | 0 <= i < |cands| :: w <= |cands[i].sig|
  {
    if |cands| == 1 then |cands[0].sig|
    else
      var rest := Width(cands[1..]);
      assert forall i | 1 <= i < |cands| :: cands[i] == cands[1..][i - 1];
      if |cands[0].sig| <= rest then |cands[0].sig| else rest
  }

  /** The width is the length of one of the signatures. */
  lemma {:induction false} WidthAttained<T>(cands: seq<Leaf<T>>)
    requires |cands| > 0
    ensures exists i | 0 <= i < |cands| :: Width(cands) == |cands[i].sig|
  {
    if |cands| > 1 {
      WidthAttained(cands[1..]);
      var i :| 0 <= i < |cands| - 1 && Width(cands[1..]) == |cands[1..][i].sig|;
      assert cands[1..][i] == cands[i + 1];
      if Width(cands) != |cands[0].sig| {
        assert Width(cands) == |cands[i + 1].sig|;
      }
    } else {
      assert Width(cands) == |cands[0].sig|;
    }
  }

  /** The types the candidates give to parameter j. */
  function Column<T>(cands: seq<Leaf<T>>, j: nat): seq<T>
    requires |cands| > 0 && j < Width(cands)
  {
    seq(|cands|, i requires 0 <= i < |cands| => cands[i].sig[j])
  }

  /** `all_eq`. */
  predicate AllEq<T(==)>(xs: seq<T>)
    requires |xs| > 0
  {
    forall i | 0 <= i < |xs| :: xs[i] == xs[0]
  }

  /** The sort key's `__lt__`: a is below b unless a is the top type. */
  predicate Below<A, T(==), V>(ts: TypeSystem<A, T, V>, a: T, b: T) {
    a != ts.anyType && ts.isSubclass(a, b)
  }

  /** Nothing in ps is strictly below ps[i]. */
  predicate Minimal<A, T(==), V>(ts: TypeSystem<A, T, V>, ps: seq<T>, i: nat)
    requires i < |ps|
  {
    forall k | 0 <= k < |ps| :: Below(ts, ps[k], ps[i]) ==> Below(ts, ps[i], ps[k])
  }

  /** The column's most specific index `ms_i`: the first minimal index (index 0
    * when there is none), which is where a sort by the key puts a minimal one. */
  function FirstMinimal<A, T(==), V>(ts: TypeSystem<A, T, V>, ps: seq<T>, from: nat): (m: nat)
    requires from <= |ps| && |ps| > 0
    ensures m < |ps|
    ensures (exists i | from <= i < |ps| :: Minimal(ts, ps, i)) ==>
      from <= m && Minimal(ts, ps, m) && forall i | from <= i < m :: !Minimal(ts, ps, i)
    ensures (forall i | from <= i < |ps| :: !Minimal(ts, ps, i)) ==> m == 0
    decreases |ps| - from
  {
    if from == |ps| then 0
    else if Minimal(ts, ps, from) then from
    else FirstMinimal(ts, ps, from + 1)
  }

  /** Whether index i joins the winning set of its column, whose most specific
    * type is mt: an equal type, a subtype that is not the top type, or a type
    * mt is not a subtype of. */
  predicate Joins<A, T(==), V>(ts: TypeSystem<A, T, V>, t: T, mt: T) {
    t == mt || (ts.isSubclass(t, mt) && t != ts.anyType) || !ts.isSubclass(mt, t)
  }

  /** The winning set of one column. */
  function WinningSet<A, T(==), V>(ts: TypeSystem<A, T, V>, ps: seq<T>): (s: set<nat>)
    requires |ps| > 0
    ensures FirstMinimal(ts, ps, 0) in s
    ensures forall i :: i in s <==> 0 <= i < |ps| && (i == FirstMinimal(ts, ps, 0) || Joins(ts, ps[i], ps[FirstMinimal(ts, ps, 0)]))
  {
    var m := FirstMinimal(ts, ps, 0);
    {m} + set i | 0 <= i < |ps| && i != m && Joins(ts, ps[i], ps[m])
  }

  /** The columns before j whose types do not all agree, in column order. */
  function DifferingColumns<T(==)>(cands: seq<Leaf<T>>, j: nat): (cs: seq<nat>)
    requires |cands| > 0 && j <= Width(cands)
    ensures forall k | 0 <= k < |cs| :: cs[k] < j
  {
    if j == 0 then []
    else DifferingColumns(cands, j - 1) + (if AllEq(Column(cands, j - 1)) then [] else [j - 1])
  }

  /** The winning set of column c; a column past the shortest signature has none. */
  function ColumnSet<A, T(==), V>(ts: TypeSystem<A, T, V>, cands: seq<Leaf<T>>, c: nat): (s: set<nat>)
    ensures |cands| > 0 && c < Width(cands) ==> s != {} && forall i | i in s :: i < |cands|
  {
    if |cands| > 0 && c < Width(cands) then WinningSet(ts, Column(cands, c)) else {}
  }

  /** f applied to every element of cs, in order. */
  function MapSeq<X>(cs: seq<nat>, f: nat -> X): (r: seq<X>)
    ensures |r| == |cs| && forall k | 0 <= k < |cs| :: r[k] == f(cs[k])
  {
    seq(|cs|, k requires 0 <= k < |cs| => f(cs[k]))
  }

  lemma MapSeqAppend<X>(cs: seq<nat>, c: nat, f: nat -> X)
    ensures MapSeq(cs + [c], f) == MapSeq(cs, f) + [f(c)]
  {
    var a, b := MapSeq(cs + [c], f), MapSeq(cs, f) + [f(c)];
    forall k | 0 <= k < |a| ensures a[k] == b[k] {
      if k < |cs| {
        assert (cs + [c])[k] == cs[k];
      }
    }
  }

  /** The winning sets of the columns before j that do not all agree. */
  function WinningSets<A, T(==), V>(ts: TypeSystem<A, T, V>, cands: seq<Leaf<T>>, j: nat): (r: seq<set<nat>>)
    requires |cands| > 0 && j <= Width(cands)
    ensures WellFormedSets(cands, r)
  {
    MapSeq(DifferingColumns(cands, j), c => ColumnSet(ts, cands, c))
  }

  /** One more column adds its winning set when its types do not all agree. */
  lemma WinningSetsStep<A, T, V>(ts: TypeSystem<A, T, V>, cands: seq<Leaf<T>>, j: nat)
    requires |cands| > 0 && j < Width(cands)
    ensures WinningSets(ts, cands, j + 1) ==
      WinningSets(ts, cands, j) + (if AllEq(Column(cands, j)) then [] else [WinningSet(ts, Column(cands, j))])
  {
    var cs := DifferingColumns(cands, j);
    if !AllEq(Column(cands, j)) {
      MapSeqAppend(cs, j, c => ColumnSet(ts, cands, c));
    }
  }

  function Intersection(sets: seq<set<nat>>): (r: set<nat>)
    requires |sets| > 0
    ensures forall i :: i in r <==> forall k | 0 <= k < |sets| :: i in sets[k]
  {
    if |sets| == 1 then sets[0]
    else
      var rest := Intersection(sets[..|sets| - 1]);
      assert forall i | i in rest :: forall k | 0 <= k < |sets| - 1 :: i in sets[k] by {
        assert forall k | 0 <= k < |sets| - 1 :: sets[k] == sets[..|sets| - 1][k];
      }
      rest * sets[|sets| - 1]
  }

  function Union(sets: seq<set<nat>>): (r: set<nat>)
    ensures forall i :: i in r <==> exists k | 0 <= k < |sets| :: i in sets[k]
  {
    if |sets| == 0 then {}
    else
      var rest := Union(sets[..|sets| - 1]);
      assert forall k | 0 <= k < |sets| - 1 :: sets[k] == sets[..|sets| - 1][k];
      rest + sets[|sets| - 1]
  }

  /** Candidate i has a priority strictly greater than every other one in amb. */
  ghost predicate StrictTop<T>(cands: seq<Leaf<T>>, amb: set<nat>, i: nat)
    requires forall k | k in amb :: k < |cands|
  {
    i in amb && forall k | k in amb && k != i :: cands[k].f.priority < cands[i].f.priority
  }

  /** The specification of `choose_most_specific_function`. */
  ghost function Resolve<A, T, V>(ts: TypeSystem<A, T, V>, cands: seq<Leaf<T>>): (r: Outcome<T>)
    requires |cands| > 1
    ensures r.Chosen? ==> r.leaf in cands
  {
    Decide(cands, WinningSets(ts, cands, Width(cands)))
  }

  /** Every winning set is a non-empty set of candidate indices. */
  predicate WellFormedSets<T>(cands: seq<Leaf<T>>, sets: seq<set<nat>>) {
    forall k | 0 <= k < |sets| :: sets[k] != {} && forall i | i in sets[k] :: i < |cands|
  }

  /** The decision taken from the winning sets: the one candidate in all of
    * them, else the one with the strictly highest priority among those in
    * any of them. */
  ghost function Decide<T>(cands: seq<Leaf<T>>, sets: seq<set<nat>>): (r: Outcome<T>)
    requires WellFormedSets(cands, sets)
    ensures r.Chosen? ==> r.leaf in cands
  {
    if |sets| == 0 then NoDifferingColumn
    else
      var inter := Intersection(sets);
      if |inter| == 1 then
        var ms :| ms in inter;
        Chosen(cands[ms])
      else
        var amb := Union(sets);
        if |amb| < 2 then TooFewAmbiguous else PriorityPick(cands, amb)
  }

  /** The candidate with the strictly highest priority, else an ambiguity. */
  ghost function PriorityPick<T>(cands: seq<Leaf<T>>, amb: set<nat>): (r: Outcome<T>)
    requires forall k | k in amb :: k < |cands|
  {
    if exists i | i in amb :: StrictTop(cands, amb, i) then
      var i :| i in amb && StrictTop(cands, amb, i);
      Chosen(cands[i])
    else Ambiguous
  }

  /** At most one candidate has the strictly highest priority. */
  lemma StrictTopUnique<T>(cands: seq<Leaf<T>>, amb: set<nat>, i: nat, k: nat)
    requires forall q | q in amb :: q < |cands|
    requires StrictTop(cands, amb, i) && StrictTop(cands, amb, k)
    ensures i == k
  {
  }

  /** The candidate with the strictly highest priority is the one picked. */
  lemma PriorityPickTop<T>(cands: seq<Leaf<T>>, amb: set<nat>, i: nat)
    requires forall k | k in amb :: k < |cands|
    requires StrictTop(cands, amb, i)
    ensures PriorityPick(cands, amb) == Chosen(cands[i])
  {
    var j :| j in amb && StrictTop(cands, amb, j) && PriorityPick(cands, amb) == Chosen(cands[j]);
    StrictTopUnique(cands, amb, i, j);
  }

  /** Two candidates tied at the highest priority make the dispatch ambiguous. */
  lemma PriorityPickTied<T>(cands: seq<Leaf<T>>, amb: set<nat>, best: nat, k: nat)
    requires forall q | q in amb :: q < |cands|
    requires best in amb && k in amb && k != best
    requires forall q | q in amb :: cands[q].f.priority <= cands[best].f.priority
    requires cands[k].f.priority == cands[best].f.priority
    ensures PriorityPick(cands, amb) == Ambiguous
  {
    forall i | i in amb
      ensures !StrictTop(cands, amb, i)
    {
      if i != best {
        assert cands[i].f.priority <= cands[best].f.priority;
      }
    }
  }

  /** `all_eq(xs)` */
  method AllEqual<T(==)>(xs: seq<T>) returns (r: bool)
    requires |xs| > 0
    ensures r == AllEq(xs)
  {
    var a := xs[0];
    for i := 1 to |xs|
      invariant forall k | 0 <= k < i :: xs[k] == a
    {
      if a != xs[i] {
        return false;
      }
    }
    return true;
  }

  /** One column's winning set: find the most specific index, then add the
    * other indices that join it. */
  method ColumnWinners<A, T(==), V>(ts: TypeSystem<A, T, V>, ps: seq<T>) returns (s: set<nat>)
    requires |ps| > 0
    ensures s == WinningSet(ts, ps)
  {
    var m := 0;
    var found := false;
    for i := 0 to |ps|
      invariant FirstMinimal(ts, ps, 0) == if found then m else FirstMinimal(ts, ps, i)
      invariant found ==> m < |ps|
    {
      if !found {
        var minimal := true;
        for k := 0 to |ps|
          invariant minimal <==> forall q | 0 <= q < k :: Below(ts, ps[q], ps[i]) ==> Below(ts, ps[i], ps[q])
        {
          if Below(ts, ps[k], ps[i]) && !Below(ts, ps[i], ps[k]) {
            minimal := false;
          }
        }
        if minimal {
          m, found := i, true;
        }
      }
    }
    if !found {
      m := 0;
    }
    var mt := ps[m];
    s := {m};
    for i := 0 to |ps|
      invariant forall q :: q in s <==> q == m || (0 <= q < i && Joins(ts, ps[q], mt))
    {
      if i != m && Joins(ts, ps[i], mt) {
        s := s + {i};
      }
    }
  }

  /** `choose_most_specific_function(args, *funcs)` */
  method ChooseMostSpecific<A, T(==), V>(ts: TypeSystem<A, T, V>, cands: seq<Leaf<T>>) returns (r: Outcome<T>)
    requires |cands| > 1
    ensures r == Resolve(ts, cands)
  {
    var perParam := MostSpecificPerParam(ts, cands);
    r := DecideFrom(cands, perParam);
  }

  method DecideFrom<T>(cands: seq<Leaf<T>>, perParam: seq<set<nat>>) returns (r: Outcome<T>)
    requires WellFormedSets(cands, perParam)
    ensures r == Decide(cands, perParam)
  {
    if |perParam| == 0 {
      return NoDifferingColumn;
    }
    var inter := Intersection(perParam);
    if |inter| == 1 {
      var ms :| ms in inter;
      SingletonIs(inter, ms);
      DecideSingleton(cands, perParam, ms);
      return Chosen(cands[ms]);
    }
    var amb := Union(perParam);
    if |amb| < 2 {
      return TooFewAmbiguous;
    }
    r := ByPriority(cands, amb);
  }

  lemma SingletonIs(s: set<nat>, x: nat)
    requires |s| == 1 && x in s
    ensures s == {x}
  {
    var rest := s - {x};
    assert s == rest + {x};
    assert |rest| == 0;
  }

  lemma DecideSingleton<T>(cands: seq<Leaf<T>>, sets: seq<set<nat>>, ms: nat)
    requires WellFormedSets(cands, sets) && |sets| > 0 && Intersection(sets) == {ms}
    ensures Decide(cands, sets) == Chosen(cands[ms])
  {
    assert |Intersection(sets)| == 1;
  }

  /** The winning set of every column that does not all agree, in column order. */
  method MostSpecificPerParam<A, T(==), V>(ts: TypeSystem<A, T, V>, cands: seq<Leaf<T>>) returns (perParam: seq<set<nat>>)
    requires |cands| > 0
    ensures perParam == WinningSets(ts, cands, Width(cands))
  {
    var w := ShortestSignature(cands);
    perParam := [];
    for j := 0 to w
      invariant perParam == WinningSets(ts, cands, j)
    {
      var col := Column(cands, j);
      WinningSetsStep(ts, cands, j);
      var same := AllEqual(col);
      if !same {
        var s := ColumnWinners(ts, col);
        perParam := perParam + [s];
      }
    }
  }

  /** The length of the shortest candidate signature. */
  method ShortestSignature<T>(cands: seq<Leaf<T>>) returns (w: nat)
    requires |cands| > 0
    ensures w == Width(cands)
  {
    w := |cands[0].sig|;
    for i := 1 to |cands|
      invariant w == Width(cands[..i])
    {
      WidthOfPrefix(cands, i + 1);
      if |cands[i].sig| < w {
        w := |cands[i].sig|;
      }
    }
    assert cands[..|cands|] == cands;
  }

  /** Rank the ambiguous candidates by priority; the top one wins when its
    * priority is strictly the highest, otherwise the dispatch is ambiguous. */
  method ByPriority<T>(cands: seq<Leaf<T>>, amb: set<nat>) returns (r: Outcome<T>)
    requires forall k | k in amb :: k < |cands|
    requires amb != {}
    ensures r == PriorityPick(cands, amb)
  {
    var best: int := -1;
    var tied := false;
    for i := 0 to |cands|
      invariant best == -1 <==> forall k | k in amb :: k >= i
      invariant best >= 0 ==>
        best < i && best in amb && forall k | k in amb && k < i :: cands[k].f.priority <= cands[best].f.priority
      invariant best >= 0 ==>
        (tied <==> exists k | k in amb && k < i && k != best :: cands[k].f.priority == cands[best].f.priority)
    {
      if i in amb {
        if best == -1 || cands[i].f.priority > cands[best].f.priority {
          best, tied := i, false;
        } else if cands[i].f.priority == cands[best].f.priority {
          tied := true;
        }
      }
    }
    assert best >= 0 by {
      var k :| k in amb;
    }
    if !tied {
      assert StrictTop(cands, amb, best);
      PriorityPickTop(cands, amb, best);
      return Chosen(cands[best]);
    }
    var k :| k in amb && k < |cands| && k != best && cands[k].f.priority == cands[best].f.priority;
    PriorityPickTied(cands, amb, best, k);
    return Ambiguous;
  }

  lemma WidthOfPrefix<T>(cands: seq<Leaf<T>>, n: nat)
    requires 1 < n <= |cands|
    ensures Width(cands[..n]) ==
      if |cands[n - 1].sig| < Width(cands[..n - 1]) then |cands[n - 1].sig| else Width(cands[..n - 1])
  {
    var w := Width(cands[..n]);
    var v := Width(cands[..n - 1]);
    WidthAttained(cands[..n]);
    WidthAttained(cands[..n - 1]);
    assert forall i | 0 <= i < n - 1 :: cands[..n - 1][i] == cands[..n][i];
    var i :| 0 <= i < n && w == |cands[..n][i].sig|;
    var k :| 0 <= k < n - 1 && v == |cands[..n - 1][k].sig|;
  }
}
