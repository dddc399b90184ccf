/**
 * What conforming to each validating kind means, stated without the order in
 * which the checks run.
 */
module ConformanceLemmas {
  import opened Values
  import opened Types
  import opened Conformance

  /** A value conforms to a sum of pytypes' `SumType` exactly when it conforms to
    * some alternative. */
  lemma SumConformsIff(alts: set<Ty>, v: Value, isSub: Hierarchy)
    ensures Conforms(Sum(alts, Py), v, isSub) <==> exists u | u in alts :: Conforms(u, v, isSub)
  {
    var outs := set a | a in alts :: Check(a, v, isSub);
    assert Check(Sum(alts, Py), v, isSub) == SumOutcome(outs, v, Sum(alts, Py));
    if exists u | u in alts :: Conforms(u, v, isSub) {
      var u :| u in alts && Conforms(u, v, isSub);
      assert Check(u, v, isSub) in outs;
    }
  }

  /** A sum raises only when no alternative accepts and some alternative raises. */
  lemma SumRaisesIff(alts: set<Ty>, v: Value, isSub: Hierarchy)
    ensures Check(Sum(alts, Py), v, isSub).Raise? <==>
      (forall u | u in alts :: !Conforms(u, v, isSub)) && exists u | u in alts :: Check(u, v, isSub).Raise?
  {
    var outs := set a | a in alts :: Check(a, v, isSub);
    assert Check(Sum(alts, Py), v, isSub) == SumOutcome(outs, v, Sum(alts, Py));
    SumConformsIff(alts, v, isSub);
    if exists u | u in alts :: Check(u, v, isSub).Raise? {
      var u :| u in alts && Check(u, v, isSub).Raise?;
      assert Check(u, v, isSub) in outs;
    }
  }

  /** An instance of `tuple` (or of a subclass, such as a namedtuple) conforms to
    * a product of pytypes' `ProductType` of its length element by element; the
    * empty product accepts every such instance. */
  lemma ProductConformsIff(ts: seq<Ty>, v: Value, isSub: Hierarchy)
    ensures Conforms(Product(ts, Py), v, isSub) <==>
      IsInstance(v, TupleClass, isSub) && Elements(v).Some? &&
      (|ts| == 0 ||
        (|Elements(v).value| == |ts| && forall i | 0 <= i < |ts| :: Conforms(ts[i], Elements(v).value[i], isSub)))
  {
    if IsInstance(v, TupleClass, isSub) && Elements(v).Some? {
      var items := Elements(v).value;
      if |ts| == 0 || |items| == |ts| {
        var n := if |ts| < |items| then |ts| else |items|;
        var outs := seq(n, i requires 0 <= i < n => Check(ts[i], items[i], isSub));
        assert Check(Product(ts, Py), v, isSub) == FirstFailure(outs);
        assert forall i | 0 <= i < n :: (outs[i] == Pass <==> Conforms(ts[i], items[i], isSub));
      }
    }
  }

  /** A value that is not an instance of `tuple`, or one of another length than a
    * non-empty product, is rejected with the matching mismatch; one that cannot be
    * iterated raises. */
  lemma ProductRejects(ts: seq<Ty>, v: Value, isSub: Hierarchy)
    ensures !IsInstance(v, TupleClass, isSub) ==> Check(Product(ts, Py), v, isSub) == Reject(NotATuple(v))
    ensures IsInstance(v, TupleClass, isSub) && Elements(v).None? ==>
      Check(Product(ts, Py), v, isSub) == Raise(NotIterable)
    ensures IsInstance(v, TupleClass, isSub) && Elements(v).Some? && |ts| > 0 && |Elements(v).value| != |ts| ==>
      Check(Product(ts, Py), v, isSub) == Reject(LengthMismatch(Product(ts, Py), v))
  {
  }

  /** `Tuple` and `Tuple[...]` test `isinstance(v, tuple)`: an instance of a subclass of
    * `tuple` (a namedtuple `Point(1, 2)`) conforms to `Tuple`, to `Data(tuple)` and to
    * the product of its items' types, and a list does not. */
  lemma NamedTupleConforms()
    ensures var isSub: Hierarchy := (k1: Kernel, k2: Kernel) => k1 == k2 || (k1 == "Point" && k2 == TupleClass);
      var p := TupleVal("Point", [IntVal("int", 1), IntVal("int", 2)]);
      var l := SeqVal("list", [IntVal("int", 1), IntVal("int", 2)]);
      Conforms(Tuple, p, isSub) && Conforms(Data(TupleClass), p, isSub) &&
      Conforms(Product([Data("int"), Data("int")], Py), p, isSub) &&
      Check(Tuple, l, isSub) == Reject(TypeMismatch(l, Tuple)) &&
      Check(Product([Data("int"), Data("int")], Py), l, isSub) == Reject(NotATuple(l))
  {
    var isSub: Hierarchy := (k1: Kernel, k2: Kernel) => k1 == k2 || (k1 == "Point" && k2 == TupleClass);
    var p := TupleVal("Point", [IntVal("int", 1), IntVal("int", 2)]);
    ProductConformsIff([Data("int"), Data("int")], p, isSub);
  }

  /** `Tuple` accepts exactly the instances of `tuple`, as `Data(tuple)` does. */
  lemma TupleIsTupleClass(v: Value, isSub: Hierarchy)
    ensures Conforms(Tuple, v, isSub) <==> Conforms(Data(TupleClass), v, isSub)
    ensures Conforms(Tuple, v, isSub) <==> isSub(ClassOf(v), TupleClass)
  {
  }

  /** A sequence type accepts an iterable instance of its base whose every element
    * conforms to its item; with item `pytypes.Any` only the base is checked. */
  lemma SequenceConformsIff(base: Ty, item: Ty, variance: Variance, v: Value, isSub: Hierarchy)
    ensures item == PyAny ==>
      (Conforms(Generic(base, item, variance, SequenceContainer), v, isSub) <==> Conforms(base, v, isSub))
    ensures item != PyAny ==>
      (Conforms(Generic(base, item, variance, SequenceContainer), v, isSub) <==>
        Conforms(base, v, isSub) && Elements(v).Some? &&
        forall i | 0 <= i < |Elements(v).value| :: Conforms(item, Elements(v).value[i], isSub))
  {
    if Conforms(base, v, isSub) {
      assert Check(Generic(base, item, variance, SequenceContainer), v, isSub) == SequenceItems(item, v, isSub);
      if item != PyAny && Elements(v).Some? {
        var xs := Elements(v).value;
        var outs := ItemOutcomes(item, xs, isSub);
        assert SequenceItems(item, v, isSub) == FirstFailure(outs);
        assert forall i | 0 <= i < |xs| :: (outs[i] == Pass <==> Conforms(item, xs[i], isSub));
      }
    }
  }

  /** A dict type `Dict[K, V]` accepts a mapping instance of its base whose every
    * key conforms to K and every value to V; the pair may be of either layer.
    * Only the pair is unpacked: its own `validate_instance` is never called. */
  lemma DictConformsIff(base: Ty, k: Ty, w: Ty, l: Layer, variance: Variance, v: Value, isSub: Hierarchy)
    requires v.DictVal?
    ensures Conforms(Generic(base, Product([k, w], l), variance, DictContainer), v, isSub) <==>
      Conforms(base, v, isSub) &&
      forall i | 0 <= i < |v.entries| :: Conforms(k, v.entries[i].0, isSub) && Conforms(w, v.entries[i].1, isSub)
  {
    var item := Product([k, w], l);
    if Conforms(base, v, isSub) {
      var es := v.entries;
      var outs := EntryOutcomes(item, es, isSub);
      assert Check(Generic(base, item, variance, DictContainer), v, isSub) == FirstFailure(outs);
      if forall j | 0 <= j < 2 * |es| :: outs[j] == Pass {
        forall i | 0 <= i < |es| ensures Conforms(k, es[i].0, isSub) && Conforms(w, es[i].1, isSub) {
          assert outs[2 * i] == Pass && outs[2 * i + 1] == Pass;
        }
      } else {
        var j :| 0 <= j < 2 * |es| && outs[j] != Pass;
        assert j == 2 * (j / 2) || j == 2 * (j / 2) + 1;
      }
    }
  }

  /** A dict type whose item is not a pair raises, once the base accepts. */
  lemma DictMalformedItem(base: Ty, item: Ty, variance: Variance, v: Value, isSub: Hierarchy)
    requires Conforms(base, v, isSub) && item != PyAny
    requires !(item.Product? && |item.elems| == 2)
    ensures Check(Generic(base, item, variance, DictContainer), v, isSub) == Raise(MalformedDictItem)
  {
  }

  /** A value satisfies a constraint when it conforms to the constrained type and
    * every predicate holds of it. */
  lemma ConstraintConformsIff(ct: Ty, preds: seq<Pred>, v: Value, isSub: Hierarchy)
    ensures Conforms(Constraint(ct, preds), v, isSub) <==>
      Conforms(ct, v, isSub) && forall i | 0 <= i < |preds| :: Holds(preds[i], v) == Some(true)
  {
  }

  /** A literal accepts a value equal, by Python's `==`, to one of its values:
    * `Literal[True]` accepts `1` and `Literal[1]` accepts `True`. */
  lemma OneOfConformsIff(values: seq<Value>, v: Value, isSub: Hierarchy)
    ensures Conforms(OneOf(values), v, isSub) <==> exists i | 0 <= i < |values| :: PyEq(values[i], v)
    ensures Conforms(OneOf([IntVal("bool", 1)]), IntVal("int", 1), isSub)
    ensures Conforms(OneOf([IntVal("int", 1)]), IntVal("bool", 1), isSub)
  {
    assert PyEq([IntVal("bool", 1)][0], IntVal("int", 1));
    assert PyEq([IntVal("int", 1)][0], IntVal("bool", 1));
  }

  /** Kinds without `validate_instance` raise instead of answering: among them
    * `base_types.Any` and the sums and products that `+` and `*` build. */
  lemma NonValidatorsRaise(t: Ty, v: Value, isSub: Hierarchy)
    requires t.Atom? || t.Phantom? || t.PhantomGeneric? || (t.Generic? && t.container == AbstractBase) ||
      t == BaseAny || (t.Sum? && t.layer == Base) || (t.Product? && t.layer == Base)
    ensures TestInstance(t, v, isSub) == Error(NotAValidator)
  {
  }
}
