/**
 * Properties of the subtype relation: the meaning of each rule, the operators'
 * own overrides, equality, and soundness of `<=` with respect to conformance.
 */
module RelationLemmas {
  import opened Values
  import opened Types
  import opened Conformance
  import opened Relation
  import opened ConformanceLemmas

  // ---------------------------------------------------------------------------
  // The collections of results the sum and product rules combine

  lemma AltsLeMembers(a: Ty, b: Ty, isSub: Hierarchy)
    requires a.Sum?
    ensures forall t | t in a.alts :: Le(t, b, isSub) in AltsLe(a, b, isSub)
    ensures forall x | x in AltsLe(a, b, isSub) :: exists t | t in a.alts :: x == Le(t, b, isSub)
  {
  }

  lemma LeAltsMembers(a: Ty, b: Ty, isSub: Hierarchy)
    requires b.Sum?
    ensures forall t | t in b.alts :: Le(a, t, isSub) in LeAlts(a, b, isSub)
    ensures forall x | x in LeAlts(a, b, isSub) :: exists t | t in b.alts :: x == Le(a, t, isSub)
  {
  }

  lemma PointwiseLeMembers(a: Ty, b: Ty, isSub: Hierarchy)
    requires a.Product? && b.Product? && |a.elems| == |b.elems|
    ensures forall i | 0 <= i < |a.elems| :: PointwiseLe(a, b, isSub)[i] == Le(a.elems[i], b.elems[i], isSub)
  {
  }

  // ---------------------------------------------------------------------------
  // Any, the fallback and the reversed operator

  /** Every type is `<= pytypes.Any`, and every type but Tuple is
    * `<= base_types.Any`: Tuple's own `<=` asks for pytypes' Any by identity. */
  lemma LeAny(t: Ty, isSub: Hierarchy)
    ensures Le(t, PyAny, isSub) == Ok(true)
    ensures Le(t, BaseAny, isSub) == Ok(!t.Tuple?)
  {
    if t.OneOf? {
      assert forall i | 0 <= i < |t.values| :: Conforms(PyAny, t.values[i], isSub);
    }
  }

  /** `Any <= t`, for either Any, never raises, and holds exactly when
    * `AnyLe(t)` does. */
  lemma {:induction false} AnyLeAgrees(l: Layer, t: Ty, isSub: Hierarchy)
    ensures Le(Any(l), t, isSub) == Ok(AnyLe(t))
    decreases Size(t)
  {
    match t
    case Any(_) =>
    case Sum(alts, _) =>
      forall u | u in alts ensures Le(Any(l), u, isSub) == Ok(AnyLe(u)) {
        AltSmaller(t, u);
        AnyLeAgrees(l, u, isSub);
      }
      var rs := LeAlts(Any(l), t, isSub);
      assert Chosen(Any(l), t) == SumRight;
      if AnyLe(t) {
        var u :| u in alts && AnyLe(u);
        assert Le(Any(l), u, isSub) in rs;
      } else {
        assert forall x | x in rs :: x == Ok(false);
      }
    case Generic(base, item, _, _) =>
      assert Size(base) < Size(t);
      AnyLeAgrees(l, base, isSub);
    case PhantomGeneric(_, item) =>
      assert Size(item) < Size(t);
      AnyLeAgrees(l, item, isSub);
    case _ =>
  }

  /** `Any <= Int` is False: Any is below no data type. */
  lemma AnyNotLeData(l: Layer, k: Kernel, isSub: Hierarchy)
    ensures Le(Any(l), Data(k), isSub) == Ok(false)
  {
    AnyLeAgrees(l, Data(k), isSub);
  }

  /** When no rule but the fallback applies, `a <= b` is `a == b`. */
  lemma FallbackIsEquality(a: Ty, b: Ty, isSub: Hierarchy)
    requires !a.Data? && !a.Tuple? && !a.OneOf?
    requires forall r :: Applies(r, a, b) ==> r == Fallback
    ensures Le(a, b, isSub) == Ok(Eq(a, b))
  {
    assert Chosen(a, b) == Fallback by {
      if Chosen(a, b) != NoUniqueRule { assert Applies(Chosen(a, b), a, b); }
      else { ChosenResolves(a, b); }
    }
  }

  /** `a >= b` is `le(b, a)`, and `b <= a` when neither operand overrides the
    * operators; when the class of b derives from that of a, it is b's own `__le__`. */
  lemma GeIsReversedLe(a: Ty, b: Ty, isSub: Hierarchy)
    requires !a.Tuple? && !a.OneOf?
    ensures !RightSubclass(a, b) ==> Ge(a, b, isSub) == DispatchedLe(b, a, isSub)
    ensures !b.Data? && !b.Tuple? && !b.OneOf? ==> Ge(a, b, isSub) == Le(b, a, isSub)
    ensures RightSubclass(a, b) ==> Ge(a, b, isSub) == Le(b, a, isSub) == Ok(isSub(b.kernel, a.kernel))
  {
  }

  /** The reflected priority on data types: `Object >= Int` asks `Int.__le__`
    * first, which answers `issubclass(int, object)`; `bool <= Int` asks
    * `Int.__ge__` first, which dispatches `le(bool, Int)` and reaches `==`.
    * Between two plain data types `>=` is `Type.__ge__`: `Object >= Bytes`
    * dispatches `le(Bytes, Object)`, which is `==` too. */
  lemma ReflectedDataExamples(isSub: Hierarchy)
    requires isSub("int", "object") && isSub("bool", "int")
    ensures Ge(Data("object"), Data("int"), isSub) == Ok(true)
    ensures Le(Data("bool"), Data("int"), isSub) == Ok(false)
    ensures Le(Data("int"), Data("object"), isSub) == Ok(true)
    ensures Ge(Data("object"), Data("bytes"), isSub) == Ok(false)
  {
    DataLe("bool", "int", isSub);
    assert Chosen(Data("bytes"), Data("object")) == Fallback by {
      var c := Chosen(Data("bytes"), Data("object"));
      if c != NoUniqueRule { assert Applies(c, Data("bytes"), Data("object")); }
      else { ChosenResolves(Data("bytes"), Data("object")); }
    }
  }

  // ---------------------------------------------------------------------------
  // Sums

  /** A sum of either layer on the left is below b exactly when every
    * alternative is (priority 51), even when b is itself a sum. */
  lemma SumLeftLe(alts: set<Ty>, l: Layer, b: Ty, isSub: Hierarchy)
    requires !b.Any?
    ensures Le(Sum(alts, l), b, isSub) == Ok(true) <==> forall t | t in alts :: Le(t, b, isSub) == Ok(true)
    ensures Le(Sum(alts, l), b, isSub) == Ok(false) <==> exists t | t in alts :: Le(t, b, isSub) == Ok(false)
  {
    var rs := AltsLe(Sum(alts, l), b, isSub);
    assert Chosen(Sum(alts, l), b) == SumLeft;
    assert Le(Sum(alts, l), b, isSub) == AllOf(rs);
    AltsLeMembers(Sum(alts, l), b, isSub);
    if exists t | t in alts :: Le(t, b, isSub) == Ok(false) {
      var t :| t in alts && Le(t, b, isSub) == Ok(false);
      assert Le(t, b, isSub) in rs;
    }
  }

  /** A non-sum on the left is below a sum exactly when it is below some alternative
    * (priority 50), unless it overrides `<=` itself. A literal's own `<=` gives
    * way to this rule for the sums of `+`, which are no `PythonType`. */
  lemma SumRightLe(a: Ty, alts: set<Ty>, l: Layer, isSub: Hierarchy)
    requires !a.Sum? && !a.Tuple? && !(a.OneOf? && l == Py)
    ensures Le(a, Sum(alts, l), isSub) == Ok(true) <==> exists t | t in alts :: Le(a, t, isSub) == Ok(true)
  {
    var rs := LeAlts(a, Sum(alts, l), isSub);
    assert Chosen(a, Sum(alts, l)) == SumRight;
    assert Le(a, Sum(alts, l), isSub) == AnyOf(rs);
    LeAltsMembers(a, Sum(alts, l), isSub);
    if exists t | t in alts :: Le(a, t, isSub) == Ok(true) {
      var t :| t in alts && Le(a, t, isSub) == Ok(true);
      assert Le(a, t, isSub) in rs;
    }
  }

  /** `Tuple <= x` only for Any and Tuple, so a sum holding Tuple is not below itself. */
  lemma SumWithTupleNotReflexive(k: Kernel, l: Layer, isSub: Hierarchy)
    ensures Le(Sum({Tuple, Data(k)}, l), Sum({Tuple, Data(k)}, l), isSub) == Ok(false)
  {
    SumLeftLe({Tuple, Data(k)}, l, Sum({Tuple, Data(k)}, l), isSub);
    assert Le(Tuple, Sum({Tuple, Data(k)}, l), isSub) == Ok(false);
  }

  // ---------------------------------------------------------------------------
  // Products

  /** Products of either layer compare pointwise, and only at equal length. */
  lemma ProductLe(xs: seq<Ty>, l1: Layer, ys: seq<Ty>, l2: Layer, isSub: Hierarchy)
    ensures Le(Product(xs, l1), Product(ys, l2), isSub) == Ok(true) <==>
      |xs| == |ys| && forall i | 0 <= i < |xs| :: Le(xs[i], ys[i], isSub) == Ok(true)
    ensures |xs| != |ys| ==> Le(Product(xs, l1), Product(ys, l2), isSub) == Ok(false)
  {
    var a, b := Product(xs, l1), Product(ys, l2);
    assert Chosen(a, b) == ProductPair;
    if |xs| == |ys| {
      assert Le(a, b, isSub) == AllInOrder(PointwiseLe(a, b, isSub));
      PointwiseLeMembers(a, b, isSub);
    }
  }

  // ---------------------------------------------------------------------------
  // Generics

  /** Two generics: the bases compare, and the items by the left generic's variance. */
  lemma GenericPairLe(g: Ty, h: Ty, isSub: Hierarchy)
    requires g.Generic? && h.Generic?
    ensures g.variance == Covariant ==> (Le(g, h, isSub) == Ok(true) <==>
      Le(g.base, h.base, isSub) == Ok(true) && Le(g.item, h.item, isSub) == Ok(true))
    ensures g.variance == Contravariant ==> (Le(g, h, isSub) == Ok(true) <==>
      Le(g.base, h.base, isSub) == Ok(true) && Ge(g.item, h.item, isSub) == Ok(true))
    ensures g.variance == Invariant ==> (Le(g, h, isSub) == Ok(true) <==>
      Le(g.base, h.base, isSub) == Ok(true) && Eq(g.item, h.item))
  {
    assert Chosen(g, h) == GenericPair;
  }

  /** A generic is below a non-generic type exactly when its base is. */
  lemma GenericLeftLe(g: Ty, b: Ty, isSub: Hierarchy)
    requires g.Generic?
    requires !b.Any? && !b.Sum? && !b.Generic? && !b.PhantomGeneric?
    ensures Le(g, b, isSub) == Le(g.base, b, isSub)
  {
    assert Chosen(g, b) == GenericLeft;
  }

  /** A type is below a generic exactly when the generic's item is
    * `base_types.Any` and the type is below its base. The generic constants of
    * `pytypes.py` carry pytypes' Any, so `str <= Iterable` is False. */
  lemma GenericRightLe(a: Ty, g: Ty, isSub: Hierarchy)
    requires g.Generic?
    requires !a.Sum? && !a.Generic? && !a.PhantomGeneric? && !a.Constraint? && !a.Tuple? && !a.OneOf?
    ensures Le(a, g, isSub) == if g.item == BaseAny then Le(a, g.base, isSub) else Ok(false)
  {
    assert Chosen(a, g) == GenericRight;
  }

  // ---------------------------------------------------------------------------
  // Phantoms

  /** T <= P[x] iff T <= x (priority 1, so it also wins against a generic on the left). */
  lemma PhantomItemRightLe(a: Ty, p: Ty, isSub: Hierarchy)
    requires p.PhantomGeneric?
    requires !a.Sum? && !a.Constraint? && !a.Tuple? && !a.OneOf?
    ensures Le(a, p, isSub) == Le(a, p.pitem, isSub)
  {
    assert Chosen(a, p) == PhantomItemRight;
  }

  /** P[x] <= T iff x <= T, for T that is not Any, a sum, a generic or a phantom. */
  lemma PhantomItemLeftLe(p: Ty, b: Ty, isSub: Hierarchy)
    requires p.PhantomGeneric?
    requires !b.Any? && !b.Sum? && !b.Generic? && !b.PhantomGeneric? && !b.Phantom?
    ensures Le(p, b, isSub) == Le(p.pitem, b, isSub)
  {
    assert Chosen(p, b) == PhantomItemLeft;
  }

  /** P[x] <= Q iff P <= Q or x <= Q, for a phantom Q. */
  lemma PhantomBaseLe(p: Ty, q: Ty, isSub: Hierarchy)
    requires p.PhantomGeneric? && q.Phantom?
    ensures Le(p, q, isSub) == Ok(true) <==>
      Le(p.pbase, q, isSub) == Ok(true) || (Le(p.pbase, q, isSub) == Ok(false) && Le(p.pitem, q, isSub) == Ok(true))
  {
    assert Chosen(p, q) == PhantomBase;
  }

  /** P[x] <= G for a generic G: two rules of priority 0 tie, and dispatch fails. */
  lemma PhantomGenericVsGenericAmbiguous(p: Ty, g: Ty, isSub: Hierarchy)
    requires p.PhantomGeneric? && g.Generic?
    ensures Le(p, g, isSub) == Err(AmbiguousDispatch)
  {
  }

  /** C <= P[x] for a constraint C: two rules of priority 1 tie, and dispatch fails. */
  lemma ConstraintVsPhantomGenericAmbiguous(c: Ty, p: Ty, isSub: Hierarchy)
    requires c.Constraint? && p.PhantomGeneric?
    ensures Le(c, p, isSub) == Err(AmbiguousDispatch)
  {
  }

  /** The phantom assertions of the library's own tests, for an atom N and
    * phantoms P and Q: `N <= P[N]`, `P[N] <= N`, `P[N] <= P[N]`, `P[N] <= P`,
    * not `P <= P[N]`. */
  lemma PhantomItemExamples(isSub: Hierarchy)
    ensures Le(Atom(0), PhantomGeneric(Phantom(1), Atom(0)), isSub) == Ok(true)
    ensures Le(PhantomGeneric(Phantom(1), Atom(0)), Atom(0), isSub) == Ok(true)
    ensures Le(PhantomGeneric(Phantom(1), Atom(0)), PhantomGeneric(Phantom(1), Atom(0)), isSub) == Ok(true)
    ensures Le(PhantomGeneric(Phantom(1), Atom(0)), Phantom(1), isSub) == Ok(true)
    ensures Le(Phantom(1), PhantomGeneric(Phantom(1), Atom(0)), isSub) == Ok(false)
  {
    var n, p := Atom(0), Phantom(1);
    var pn := PhantomGeneric(p, n);
    assert Le(n, pn, isSub) == Le(n, n, isSub);
    assert Le(pn, n, isSub) == Le(n, n, isSub);
    assert Le(pn, pn, isSub) == Le(pn, n, isSub);
    assert Le(pn, p, isSub) == Or(Le(p, p, isSub), Le(n, p, isSub));
    assert Le(p, pn, isSub) == Le(p, n, isSub);
  }

  /** A phantom generic: `P[Q] <= Q`, but not `P <= Q`. */
  lemma NestedPhantomExamples(isSub: Hierarchy)
    ensures Le(PhantomGeneric(Phantom(1), Phantom(2)), Phantom(2), isSub) == Ok(true)
    ensures Le(Phantom(1), Phantom(2), isSub) == Ok(false)
  {
    var p, q := Phantom(1), Phantom(2);
    assert Le(p, q, isSub) == Ok(false);
    assert Le(PhantomGeneric(p, q), q, isSub) == Or(Le(p, q, isSub), Le(q, q, isSub));
  }

  /** Two levels of phantoms: `P[Q[N]] <= Q` and `P[Q[N]] <= N`. */
  lemma DeepPhantomExamples(isSub: Hierarchy)
    ensures Le(PhantomGeneric(Phantom(1), PhantomGeneric(Phantom(2), Atom(0))), Phantom(2), isSub) == Ok(true)
    ensures Le(PhantomGeneric(Phantom(1), PhantomGeneric(Phantom(2), Atom(0))), Atom(0), isSub) == Ok(true)
  {
    var n, p, q := Atom(0), Phantom(1), Phantom(2);
    var qn := PhantomGeneric(q, n);
    assert Le(p, q, isSub) == Ok(false);
    assert Le(qn, q, isSub) == Or(Le(q, q, isSub), Le(n, q, isSub));
    assert Le(PhantomGeneric(p, qn), q, isSub) == Or(Le(p, q, isSub), Le(qn, q, isSub));
    assert Le(qn, n, isSub) == Le(n, n, isSub);
    assert Le(PhantomGeneric(p, qn), n, isSub) == Le(qn, n, isSub);
  }

  // ---------------------------------------------------------------------------
  // Constraints

  /** A constraint is below another constraint only when they are the same. */
  lemma ConstraintPairLe(c: Ty, d: Ty, isSub: Hierarchy)
    requires c.Constraint? && d.Constraint?
    ensures Le(c, d, isSub) == Ok(c == d)
  {
    assert Chosen(c, d) == ConstraintPair;
  }

  /** Otherwise a constraint is below T exactly when its constrained type is. */
  lemma ConstraintLeftLe(c: Ty, b: Ty, isSub: Hierarchy)
    requires c.Constraint?
    requires !b.Any? && !b.Sum? && !b.Constraint? && !b.PhantomGeneric?
    ensures Le(c, b, isSub) == Le(c.ctype, b, isSub)
  {
    assert Chosen(c, b) == ConstraintLeft;
  }

  // ---------------------------------------------------------------------------
  // The kinds that override the operators

  /** Python data types compare by subclassing their kernels, unless the right
    * one is a subclass constant and the left is not: then its `__ge__` answers
    * first, and the dispatched `le` falls back to `==`. */
  lemma DataLe(k1: Kernel, k2: Kernel, isSub: Hierarchy)
    ensures !RightSubclass(Data(k1), Data(k2)) ==> Le(Data(k1), Data(k2), isSub) == Ok(isSub(k1, k2))
    ensures RightSubclass(Data(k1), Data(k2)) ==> Le(Data(k1), Data(k2), isSub) == Ok(false)
  {
    if RightSubclass(Data(k1), Data(k2)) {
      assert Chosen(Data(k1), Data(k2)) == Fallback by {
        var c := Chosen(Data(k1), Data(k2));
        if c != NoUniqueRule { assert Applies(c, Data(k1), Data(k2)); }
        else { ChosenResolves(Data(k1), Data(k2)); }
      }
    }
  }

  /** Tuple has no supertypes but pytypes' Any and itself; it is above every
    * product of pytypes' `ProductType` and above no data type. A product built
    * by `*` is no `ProductType` of pytypes: `Tuple >= Int * Int` falls back to
    * `le(Int * Int, Tuple)`, which is equality, and is False. */
  lemma TupleRelations(x: Ty, isSub: Hierarchy)
    ensures Le(Tuple, x, isSub) == Ok(x == PyAny || x.Tuple?)
    ensures x.Product? ==> Ge(Tuple, x, isSub) == Ok(x.layer == Py)
    ensures IsDataType(x) ==> Ge(Tuple, x, isSub) == Ok(false)
    ensures Ge(Tuple, Tuple, isSub) == Ok(true)
  {
    if x.Product? && x.layer == Base {
      assert Chosen(x, Tuple) == Fallback;
      assert !Eq(x, Tuple);
      assert Ge(Tuple, x, isSub) == DispatchedLe(x, Tuple, isSub);
    }
  }

  /** Literals: subset of values up to Python's `==` against a literal,
    * validation of every value against any other Python type; a literal is
    * above no other Python type. */
  lemma OneOfRelations(values: seq<Value>, b: Ty, isSub: Hierarchy)
    ensures b.OneOf? ==> Le(OneOf(values), b, isSub) == Ok(forall i | 0 <= i < |values| :: IsIn(values[i], b.values))
    ensures b.OneOf? ==> Ge(OneOf(values), b, isSub) == Ok(forall j | 0 <= j < |b.values| :: IsIn(b.values[j], values))
    ensures IsPythonType(b) && !b.OneOf? ==>
      (Le(OneOf(values), b, isSub) == Ok(true) <==> forall i | 0 <= i < |values| :: Conforms(b, values[i], isSub))
    ensures IsPythonType(b) && !b.OneOf? ==> Ge(OneOf(values), b, isSub) == Ok(false)
  {
    if b.OneOf? {
      OneOfPairRelations(values, b.values, isSub);
    } else if IsPythonType(b) {
      OneOfTypeRelations(values, b, isSub);
    }
  }

  lemma OneOfPairRelations(values: seq<Value>, ws: seq<Value>, isSub: Hierarchy)
    ensures Le(OneOf(values), OneOf(ws), isSub) == Ok(forall i | 0 <= i < |values| :: IsIn(values[i], ws))
    ensures Ge(OneOf(values), OneOf(ws), isSub) == Ok(forall j | 0 <= j < |ws| :: IsIn(ws[j], values))
  {
  }

  lemma OneOfTypeRelations(values: seq<Value>, b: Ty, isSub: Hierarchy)
    requires IsPythonType(b) && !b.OneOf?
    ensures Le(OneOf(values), b, isSub) == Ok(true) <==> forall i | 0 <= i < |values| :: Conforms(b, values[i], isSub)
    ensures Ge(OneOf(values), b, isSub) == Ok(false)
  {
  }

  /** `Literal[True] <= Literal[1]` and back, since `True == 1`. */
  lemma OneOfEqualValues(isSub: Hierarchy)
    ensures Le(OneOf([IntVal("bool", 1)]), OneOf([IntVal("int", 1)]), isSub) == Ok(true)
    ensures Le(OneOf([IntVal("int", 1)]), OneOf([IntVal("bool", 1)]), isSub) == Ok(true)
  {
    OneOfRelations([IntVal("bool", 1)], OneOf([IntVal("int", 1)]), isSub);
    OneOfRelations([IntVal("int", 1)], OneOf([IntVal("bool", 1)]), isSub);
    assert PyEq([IntVal("int", 1)][0], [IntVal("bool", 1)][0]);
    assert PyEq([IntVal("bool", 1)][0], [IntVal("int", 1)][0]);
  }

  // ---------------------------------------------------------------------------
  // Equality

  /** Types whose equality is reflexive: phantom generics compare their item with
    * the other's base, so only those outside tuples and sums can break it. */
  predicate EqReflexiveShape(t: Ty) {
    match t
    case PhantomGeneric(_, _) => false
    case Generic(b, i, _, _) => EqReflexiveShape(b) && EqReflexiveShape(i)
    case _ => true
  }

  lemma {:induction false} EqReflexive(t: Ty)
    requires EqReflexiveShape(t)
    ensures Eq(t, t)
    decreases t
  {
    if t.Generic? {
      EqReflexive(t.base);
      EqReflexive(t.item);
    }
  }

  /** As written, `P[x] == P[x]` is False unless x equals P. */
  lemma PhantomGenericNotSelfEqual(p: Ty, x: Ty)
    requires p.Phantom? && x.Atom?
    ensures !Eq(PhantomGeneric(p, x), PhantomGeneric(p, x))
  {
  }

  /** A generic with item Any, of either layer, equals its base: `List[Any] == list`. */
  lemma GenericAnyEqualsBase(base: Ty, l: Layer, variance: Variance, container: Container)
    requires !base.Generic? && EqReflexiveShape(base)
    ensures Eq(Generic(base, Any(l), variance, container), base)
    ensures Eq(base, Generic(base, Any(l), variance, container))
  {
    EqReflexive(base);
  }

  // ---------------------------------------------------------------------------
  // Soundness: `<=` between validating types implies conformance is inherited

  /** The kinds built from validating parts without generics or phantoms, with
    * literals of plain values. */
  predicate Simple(t: Ty) {
    match t
    case Any(l) => l == Py
    case Data(_) => true
    case Tuple => true
    case OneOf(values) => forall i | 0 <= i < |values| :: Plain(values[i])
    case Sum(alts, l) => l == Py && forall u | u in alts :: Simple(u)
    case Product(elems, l) => l == Py && forall i | 0 <= i < |elems| :: Simple(elems[i])
    case Constraint(ct, _) => Simple(ct)
    case _ => false
  }

  lemma {:induction false} LeSound(a: Ty, b: Ty, v: Value, isSub: Hierarchy)
    requires Transitive(isSub)
    requires Simple(a) && Simple(b) && Plain(v)
    requires Le(a, b, isSub) == Ok(true)
    requires Conforms(a, v, isSub)
    ensures Conforms(b, v, isSub)
    decreases Size(a) + Size(b), 1
  {
    if b.Any? {
      return;
    }
    if a.Sum? {
      SumConformsIff(a.alts, v, isSub);
      var u :| u in a.alts && Conforms(u, v, isSub);
      SumLeftLe(a.alts, Py, b, isSub);
      AltSmaller(a, u);
      LeSound(u, b, v, isSub);
      return;
    }
    if b.Sum? && !a.Tuple? && !a.OneOf? {
      SumRightLe(a, b.alts, Py, isSub);
      var u :| u in b.alts && Le(a, u, isSub) == Ok(true);
      AltSmaller(b, u);
      LeSound(a, u, v, isSub);
      SumConformsIff(b.alts, v, isSub);
      return;
    }
    match a
    case Any(_) =>
    case Data(k) =>
    case Tuple =>
    case OneOf(values) =>
      LeSoundOneOf(values, b, v, isSub);
    case Product(xs, _) =>
      if b.Product? {
        LeSoundProduct(a, b, v, isSub);
      }
    case Constraint(ct, _) =>
      if b.Constraint? {
        ConstraintPairLe(a, b, isSub);
      } else {
        ConstraintLeftLe(a, b, isSub);
        assert Conforms(ct, v, isSub);
        LeSound(ct, b, v, isSub);
      }
  }

  lemma LeSoundOneOf(values: seq<Value>, b: Ty, v: Value, isSub: Hierarchy)
    requires Simple(OneOf(values)) && Simple(b) && Plain(v)
    requires Le(OneOf(values), b, isSub) == Ok(true)
    requires Conforms(OneOf(values), v, isSub)
    ensures Conforms(b, v, isSub)
  {
    var i :| 0 <= i < |values| && PyEq(values[i], v);
    PlainEq(values[i], v);
    OneOfRelations(values, b, isSub);
    if b.OneOf? {
      var j :| 0 <= j < |b.values| && PyEq(b.values[j], values[i]);
      assert IsIn(v, b.values);
    }
  }

  lemma {:induction false} LeSoundProduct(a: Ty, b: Ty, v: Value, isSub: Hierarchy)
    requires Transitive(isSub)
    requires a.Product? && b.Product? && Simple(a) && Simple(b) && Plain(v)
    requires Le(a, b, isSub) == Ok(true)
    requires Conforms(a, v, isSub)
    ensures Conforms(b, v, isSub)
    decreases Size(a) + Size(b), 0
  {
    var xs := a.elems;
    ProductLe(xs, Py, b.elems, Py, isSub);
    var items := Elements(v).value;
    PlainElements(v);
    var n := if |xs| < |items| then |xs| else |items|;
    var outsA := seq(n, i requires 0 <= i < n => Check(xs[i], items[i], isSub));
    var outsB := seq(n, i requires 0 <= i < n => Check(b.elems[i], items[i], isSub));
    assert Check(a, v, isSub) == FirstFailure(outsA);
    forall i | 0 <= i < n ensures outsB[i] == Pass {
      assert outsA[i] == Pass;
      ElemSmaller(a, i);
      ElemSmaller(b, i);
      LeSound(xs[i], b.elems[i], items[i], isSub);
    }
    assert Check(b, v, isSub) == FirstFailure(outsB);
  }

  /** Why `LeSound` asks for plain values: `Literal[True] <= bool` holds, and
    * `1` conforms to `Literal[True]` because `1 == True`, but is no bool. */
  lemma LiteralLeNotSound()
    ensures var isSub: Hierarchy := (k1: Kernel, k2: Kernel) => k1 == k2;
      Le(OneOf([IntVal("bool", 1)]), Data("bool"), isSub) == Ok(true) &&
      Conforms(OneOf([IntVal("bool", 1)]), IntVal("int", 1), isSub) &&
      !Conforms(Data("bool"), IntVal("int", 1), isSub)
  {
    var isSub: Hierarchy := (k1: Kernel, k2: Kernel) => k1 == k2;
    assert PyEq([IntVal("bool", 1)][0], IntVal("int", 1));
    assert Conforms(Data("bool"), [IntVal("bool", 1)][0], isSub);
  }
}
