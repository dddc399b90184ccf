/**
 * The subtype relation between types: Python's `a <= b`, `a >= b` and `a == b`
 * on runtype types.
 *
 * The library registers the rules of `le` and `eq` with its own multiple
 * dispatch and lets specificity, then priority, pick the rule for a pair of
 * operands. Here `Chosen` is that choice written out as a table, and
 * `ChosenResolves` proves it is the choice the resolution principle makes.
 * Three kinds override the comparison operators themselves (Python data
 * types, `Tuple`, `OneOf`); `Le` and `Ge` model the operators with those
 * overrides and Python's reflected-operand fallback, `DispatchedLe` the rule
 * table alone.
 */
module Relation {
  import opened Values
  import opened Types
  import opened Conformance

  /** Exceptions a comparison can raise. */
  datatype Error =
    | AmbiguousDispatch   // DispatchError: two rules tie in specificity and priority
    | ValidationFault     // an exception other than a mismatch while validating a literal

  datatype Res = Ok(holds: bool) | Err(error: Error)

  // ---------------------------------------------------------------------------
  // The rules of `le`, their signatures and priorities

  datatype Rule =
    | Fallback          // le(Type, Type), priority -1: self == other
    | AnyRight          // le(Type, AnyType), priority 100: True
    | SumLeft           // le(SumType, Type), priority 51: every alternative
    | SumRight          // le(Type, SumType), priority 50: some alternative
    | ProductPair       // le(ProductType, ProductType): pointwise
    | GenericPair       // le(GenericType, GenericType): base, and item by variance
    | GenericLeft       // le(GenericType, Type): the base
    | GenericRight      // le(Type, GenericType): item is base_types.Any, and the base
    | PhantomItemRight  // le(Type, PhantomGenericType), priority 1: the item
    | PhantomItemLeft   // le(PhantomGenericType, Type): the item
    | PhantomBase       // le(PhantomGenericType, PhantomType): base or item
    | ConstraintPair    // le(Constraint, Constraint): equality
    | ConstraintLeft    // le(Constraint, Type), priority 1: the constrained type
    | NoUniqueRule      // the resolver raises DispatchError

  function Priority(r: Rule): int {
    match r
    case AnyRight => 100
    case SumLeft => 51
    case SumRight => 50
    case PhantomItemRight => 1
    case ConstraintLeft => 1
    case Fallback => -1
    case _ => 0
  }

  /** The signature of rule r accepts the operands (a, b). */
  predicate Applies(r: Rule, a: Ty, b: Ty) {
    match r
    case Fallback => true
    case AnyRight => b.Any?
    case SumLeft => a.Sum?
    case SumRight => b.Sum?
    case ProductPair => a.Product? && b.Product?
    case GenericPair => a.Generic? && b.Generic?
    case GenericLeft => a.Generic?
    case GenericRight => b.Generic?
    case PhantomItemRight => b.PhantomGeneric?
    case PhantomItemLeft => a.PhantomGeneric?
    case PhantomBase => a.PhantomGeneric? && b.Phantom?
    case ConstraintPair => a.Constraint? && b.Constraint?
    case ConstraintLeft => a.Constraint?
    case NoUniqueRule => false
  }

  /** Rules whose signature names a specific kind in both positions: when one
    * applies it is more specific than every other applicable rule. */
  predicate IsPairRule(r: Rule) {
    r == ProductPair || r == GenericPair || r == PhantomBase || r == ConstraintPair
  }

  /** The rule `le` dispatches to for (a, b). */
  function Chosen(a: Ty, b: Ty): (r: Rule)
    ensures r != NoUniqueRule ==> Applies(r, a, b)
  {
    if b.Any? then AnyRight                     // 100 beats every rule on the left
    else if a.Sum? then SumLeft                 // 51 beats every rule on the right but Any
    else if b.Sum? then SumRight                // 50 beats every other rule on the left
    else match (a, b)
      case (Product(_, _), Product(_, _)) => ProductPair
      case (Generic(_, _, _, _), Generic(_, _, _, _)) => GenericPair
      case (PhantomGeneric(_, _), Phantom(_)) => PhantomBase
      case (Constraint(_, _), Constraint(_, _)) => ConstraintPair
      case (Generic(_, _, _, _), PhantomGeneric(_, _)) => PhantomItemRight  // 1 beats 0
      case (Generic(_, _, _, _), _) => GenericLeft
      case (PhantomGeneric(_, _), Generic(_, _, _, _)) => NoUniqueRule      // 0 ties 0
      case (PhantomGeneric(_, _), PhantomGeneric(_, _)) => PhantomItemRight // 1 beats 0
      case (PhantomGeneric(_, _), _) => PhantomItemLeft
      case (Constraint(_, _), PhantomGeneric(_, _)) => NoUniqueRule         // 1 ties 1
      case (Constraint(_, _), _) => ConstraintLeft                          // 1 beats 0
      case (_, Generic(_, _, _, _)) => GenericRight
      case (_, PhantomGeneric(_, _)) => PhantomItemRight
      case _ => Fallback
  }

  /** The table agrees with the resolution principle: a pair rule wins when one
    * applies; otherwise the applicable rule of strictly greatest priority wins,
    * and a tie at the top is a DispatchError. */
  lemma ChosenResolves(a: Ty, b: Ty)
    ensures IsPairRule(Chosen(a, b)) <==> exists r :: IsPairRule(r) && Applies(r, a, b)
    ensures Chosen(a, b) != NoUniqueRule && !IsPairRule(Chosen(a, b)) ==>
      forall r :: r != Chosen(a, b) && Applies(r, a, b) ==> Priority(r) < Priority(Chosen(a, b))
    ensures Chosen(a, b) == NoUniqueRule <==>
      (forall r :: !(IsPairRule(r) && Applies(r, a, b))) &&
      exists r1, r2 :: r1 != r2 && Applies(r1, a, b) && Applies(r2, a, b) && Priority(r1) == Priority(r2) &&
        forall r :: Applies(r, a, b) ==> Priority(r) <= Priority(r1)
  {
    var c := Chosen(a, b);
    if c == NoUniqueRule {
      if a.PhantomGeneric? {
        assert Applies(PhantomItemLeft, a, b) && Applies(GenericRight, a, b);
      } else {
        assert Applies(ConstraintLeft, a, b) && Applies(PhantomItemRight, a, b);
      }
    } else if c == PhantomItemRight && a.PhantomGeneric? {
      assert !Applies(PhantomBase, a, b);
    }
  }

  // ---------------------------------------------------------------------------
  // Combining the answers of several comparisons

  /** `x and y` where both sides are comparisons, evaluated left to right. */
  function And(x: Res, y: Res): (r: Res)
    ensures r == Ok(true) <==> x == Ok(true) && y == Ok(true)
  {
    if x == Ok(true) then y else x
  }

  /** `x or y` where both sides are comparisons, evaluated left to right. */
  function Or(x: Res, y: Res): (r: Res)
    ensures r == Ok(true) <==> x == Ok(true) || (x == Ok(false) && y == Ok(true))
  {
    if x == Ok(false) then y else x
  }

  function AllResults(): set<Res> {
    {Ok(true), Ok(false), Err(AmbiguousDispatch), Err(ValidationFault)}
  }

  lemma ResCases(x: Res)
    ensures x in AllResults()
  {
    match x
    case Ok(_) =>
    case Err(e) => assert e == AmbiguousDispatch || e == ValidationFault;
  }

  /** `all(...)` over a frozenset: a False answer decides, whatever the iteration
    * order; an exception surfaces only when no answer is False. */
  function AllOf(rs: set<Res>): (r: Res)
    ensures r == Ok(true) <==> forall x | x in rs :: x == Ok(true)
    ensures r == Ok(false) <==> Ok(false) in rs
  {
    if Ok(false) in rs then Ok(false)
    else if Err(AmbiguousDispatch) in rs then Err(AmbiguousDispatch)
    else if Err(ValidationFault) in rs then Err(ValidationFault)
    else
      assert forall x | x in rs :: x in AllResults() by {
        forall x | x in rs { ResCases(x); }
      }
      Ok(true)
  }

  /** `any(...)` over a frozenset: a True answer decides, whatever the iteration
    * order; an exception surfaces only when no answer is True. */
  function AnyOf(rs: set<Res>): (r: Res)
    ensures r == Ok(true) <==> Ok(true) in rs
    ensures r == Ok(false) <==> forall x | x in rs :: x == Ok(false)
  {
    if Ok(true) in rs then Ok(true)
    else if Err(AmbiguousDispatch) in rs then Err(AmbiguousDispatch)
    else if Err(ValidationFault) in rs then Err(ValidationFault)
    else
      assert forall x | x in rs :: x in AllResults() by {
        forall x | x in rs { ResCases(x); }
      }
      Ok(false)
  }

  /** `all(...)` over a tuple: left to right, stopping at the first answer that is not True. */
  function AllInOrder(rs: seq<Res>): (r: Res)
    ensures r == Ok(true) <==> forall i | 0 <= i < |rs| :: rs[i] == Ok(true)
  {
    if |rs| == 0 then Ok(true)
    else if rs[0] != Ok(true) then rs[0]
    else
      assert forall i | 1 <= i < |rs| :: rs[i] == rs[1..][i - 1];
      AllInOrder(rs[1..])
  }

  /** `try: for v in values: other.validate_instance(v)` answering False on a
    * mismatch; any other exception propagates. */
  function ValidateAll(values: seq<Value>, t: Ty, isSub: Hierarchy): (r: Res)
    ensures r == Ok(true) <==> forall i | 0 <= i < |values| :: Conforms(t, values[i], isSub)
  {
    if |values| == 0 then Ok(true)
    else match Check(t, values[0], isSub)
      case Reject(_) => Ok(false)
      case Raise(_) => Err(ValidationFault)
      case Pass =>
        assert forall i | 1 <= i < |values| :: values[i] == values[1..][i - 1];
        ValidateAll(values[1..], t, isSub)
  }

  // ---------------------------------------------------------------------------
  // Equality

  /** `Any <= t` with `base_types.Any` on the left, which never raises (see
    * `AnyLeAgrees`). */
  function AnyLe(t: Ty): bool
    decreases t
  {
    match t
    case Any(_) => true
    case Sum(alts, _) => exists u | u in alts :: AnyLe(u)
    case Generic(base, item, _, _) => item == BaseAny && AnyLe(base)
    case PhantomGeneric(_, item) => AnyLe(item)
    case _ => false
  }

  /** `a == b`: the dispatched `eq`, then the reflected `eq(b, a)`, then identity
    * (modelled as structural equality). Tuples compare elementwise with the
    * identity shortcut of Python's tuple comparison. */
  function Eq(a: Ty, b: Ty): bool
    decreases Size(a) + Size(b)
  {
    match (a, b)
    case (Sum(x, _), Sum(y, _)) => x == y
    case (Product(x, _), Product(y, _)) =>
      |x| == |y| &&
      forall i | 0 <= i < |x| :: x[i] == y[i] || (ElemSmaller(a, i); ElemSmaller(b, i); Eq(x[i], y[i]))
    case (Generic(b1, i1, _, _), Generic(b2, i2, _, _)) => Eq(b1, b2) && Eq(i1, i2)
    case (Generic(b1, i1, _, _), _) => AnyLe(i1) && Eq(b1, b)
    case (_, Generic(b2, i2, _, _)) => AnyLe(i2) && Eq(b2, a)
    // as written: the item of self is compared with the base of other
    case (PhantomGeneric(b1, i1), PhantomGeneric(b2, _)) => Eq(b1, b2) && Eq(i1, b2)
    case _ => a == b
  }

  // ---------------------------------------------------------------------------
  // The operators

  /** The dispatched `le(a, b)`. */
  function DispatchedLe(a: Ty, b: Ty, isSub: Hierarchy): Res
    decreases Size(a) + Size(b), 2
  {
    match Chosen(a, b)
    case AnyRight => Ok(true)
    case SumLeft => AllOf(AltsLe(a, b, isSub))
    case SumRight => AnyOf(LeAlts(a, b, isSub))
    case ProductPair =>
      if |a.elems| != |b.elems| then Ok(false)
      else AllInOrder(PointwiseLe(a, b, isSub))
    case GenericPair =>
      var items := match a.variance
        case Covariant => Le(a.item, b.item, isSub)
        case Contravariant => Ge(a.item, b.item, isSub)
        case Invariant => Ok(Eq(a.item, b.item));
      And(Le(a.base, b.base, isSub), items)
    case GenericLeft => Le(a.base, b, isSub)
    case GenericRight => if b.item == BaseAny then Le(a, b.base, isSub) else Ok(false)
    case PhantomItemRight => Le(a, b.pitem, isSub)
    case PhantomItemLeft => Le(a.pitem, b, isSub)
    case PhantomBase => Or(Le(a.pbase, b, isSub), Le(a.pitem, b, isSub))
    case ConstraintPair => Ok(Eq(a, b))
    case ConstraintLeft => Le(a.ctype, b, isSub)
    case Fallback => Ok(Eq(a, b))
    case NoUniqueRule => Err(AmbiguousDispatch)
  }

  /** `{le(t, b) for t in a.types}` */
  function AltsLe(a: Ty, b: Ty, isSub: Hierarchy): set<Res>
    requires a.Sum?
    decreases Size(a) + Size(b), 1
  {
    set t | t in a.alts :: (AltSmaller(a, t); Le(t, b, isSub))
  }

  /** `{le(a, t) for t in b.types}` */
  function LeAlts(a: Ty, b: Ty, isSub: Hierarchy): set<Res>
    requires b.Sum?
    decreases Size(a) + Size(b), 1
  {
    set t | t in b.alts :: (AltSmaller(b, t); Le(a, t, isSub))
  }

  /** `[le(x, y) for x, y in zip(a.types, b.types)]` on products of equal length */
  function PointwiseLe(a: Ty, b: Ty, isSub: Hierarchy): (r: seq<Res>)
    requires a.Product? && b.Product? && |a.elems| == |b.elems|
    ensures |r| == |a.elems|
    decreases Size(a) + Size(b), 1
  {
    seq(|a.elems|, i requires 0 <= i < |a.elems| =>
      (ElemSmaller(a, i); ElemSmaller(b, i); Le(a.elems[i], b.elems[i], isSub)))
  }

  /** `a <= b`. */
  function Le(a: Ty, b: Ty, isSub: Hierarchy): Res
    decreases Size(a) + Size(b), 3
  {
    match a
    case Data(k) =>
      if RightSubclass(a, b) then DispatchedLe(a, b, isSub)  // b.__ge__ first: ge(b, a) is le(a, b)
      else if b.Data? then Ok(isSub(k, b.kernel))  // PythonDataType.__le__
      else if b.Tuple? then Ok(false)         // reflected TupleType.__ge__: a DataType
      else if b.OneOf? then Ok(false)         // reflected OneOf.__ge__: a PythonType
      else DispatchedLe(a, b, isSub)          // reflected Type.__ge__: ge(b, a) is le(a, b)
    case Tuple => Ok(b == PyAny || b.Tuple?)  // TupleType.__le__: `other is Any`, pytypes' Any
    case OneOf(values) =>                   // OneOf.__le__
      if b.OneOf? then Ok(SubsetOf(values, b.values))
      else if IsPythonType(b) then ValidateAll(values, b, isSub)
      else DispatchedLe(a, b, isSub)          // reflected Type.__ge__
    case _ => DispatchedLe(a, b, isSub)       // Type.__le__
  }

  /** `type(b)` is a proper subclass of `type(a)`, so Python tries the reflected
    * method of `b` first, for `a <= b` as for `a >= b`. Among the model's kinds
    * this happens only for a plain `PythonDataType` against one of the subclass
    * constants: `_Int` and `_Float` are siblings under `_Number`, and no other
    * class of one kind derives from the class of another. */
  predicate RightSubclass(a: Ty, b: Ty) {
    a.Data? && b.Data? && !SubclassKernel(a.kernel) && SubclassKernel(b.kernel)
  }

  /** `a >= b`. */
  function Ge(a: Ty, b: Ty, isSub: Hierarchy): Res
    decreases Size(a) + Size(b), 4
  {
    match a
    case Tuple =>                           // TupleType.__ge__
      if b.Tuple? then Ok(true)
      else if IsDataType(b) then Ok(false)
      else if b.Product? && b.layer == Py then Ok(true)  // pytypes' ProductType only
      else Le(b, a, isSub)                    // reflected b.__le__(a)
    case OneOf(values) =>                   // OneOf.__ge__
      if b.OneOf? then Ok(SubsetOf(b.values, values))
      else if IsPythonType(b) then Ok(false)
      else Le(b, a, isSub)                    // reflected b.__le__(a)
    case Data(k) =>
      if RightSubclass(a, b) then Ok(isSub(b.kernel, k))  // b.__le__ first: PythonDataType.__le__
      else DispatchedLe(b, a, isSub)          // Type.__ge__
    case _ => DispatchedLe(b, a, isSub)       // Type.__ge__: ge(a, b) is le(b, a)
  }
}
