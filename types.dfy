/**
 * The closed family of runtype type kinds.
 *
 * One constructor per kind of `base_types.py` and `pytypes.py`. Python object
 * identity (`is`) and the identity fallback of `==` are modelled as structural
 * equality of these values. Any, sums and products exist in two layers: the
 * classes of `base_types.py` and their `pytypes.py` subclasses.
 */
module Types {
  import opened Values

  datatype Variance = Covariant | Contravariant | Invariant

  /** Which module's class a type object instantiates. `+`, `*` and the
    * phantom defaults build the classes of `base_types.py`; `to_canon`, the
    * dict subscription and the constants of `pytypes.py` build its
    * subclasses, which add `validate_instance` and are `PythonType`s. The
    * two `Any` objects are distinct: `base_types.Any is not pytypes.Any`. */
  datatype Layer = Base | Py

  /** Which `validate_instance` a generic uses: the base `GenericType` of
    * `base_types.py` has none; `SequenceType` and `DictType` of `pytypes.py`
    * check elements, respectively keys and values. */
  datatype Container = AbstractBase | SequenceContainer | DictContainer

  /** The predicates the library's own constraint builders create. */
  datatype Pred =
    | AtLeast(min: int)        // lambda i: i >= min
    | AtMost(max: int)         // lambda i: i <= max
    | MinLength(minLen: int)   // lambda s: len(s) >= min_length
    | MaxLength(maxLen: int)   // lambda s: len(s) <= max_length

  datatype Ty =
    | Any(layer: Layer)                         // AnyType: contains every type
    | Atom(id: nat)                             // a bare DataType() instance
    | Data(kernel: Kernel)                      // PythonDataType(kernel)
    | Sum(alts: set<Ty>, layer: Layer)          // SumType: a frozenset of alternatives
    | Product(elems: seq<Ty>, layer: Layer)     // ProductType: a tuple of types
    | Generic(base: Ty, item: Ty, variance: Variance, container: Container)
    | Phantom(id: nat)                          // a PhantomType() instance
    | PhantomGeneric(pbase: Ty, pitem: Ty)      // p[i]
    | Constraint(ctype: Ty, preds: seq<Pred>)   // a type with predicates
    | Tuple                                     // TupleType: any tuple
    | OneOf(values: seq<Value>)                 // a literal set of values

  /** `pytypes.Any`, the item of every generic constant of `pytypes.py`. */
  const PyAny: Ty := Any(Py)

  /** `base_types.Any`, the object `GenericType`'s rules test for with `is`. */
  const BaseAny: Ty := Any(Base)

  /** Instances of pytypes' `PythonType`; `Constraint`, phantoms, atoms, base
    * generics and the `base_types` Any, sums and products are not. */
  predicate IsPythonType(t: Ty) {
    match t
    case Any(l) => l == Py
    case Data(_) => true
    case Sum(_, l) => l == Py
    case Product(_, l) => l == Py
    case Generic(_, _, _, c) => c != AbstractBase
    case Tuple => true
    case OneOf(_) => true
    case _ => false
  }

  /** The kernels whose `Data` is a constant of a proper subclass of
    * `PythonDataType`: `Int` and `Float` (of `_Number`), `String`, `DateTime`,
    * `Date`, `Time` and `TimeDelta`. `to_canon` maps these classes to those
    * constants, so a plain `PythonDataType` of one of them is not modelled. */
  predicate SubclassKernel(k: Kernel) {
    k == "int" || k == "float" || k == StrClass || k == "datetime" || k == "date" || k == "time" || k == "timedelta"
  }

  /** Instances of `base_types.DataType`: atoms, Python data types and generics. */
  predicate IsDataType(t: Ty) {
    t.Atom? || t.Data? || t.Generic?
  }

  /** A termination measure for the mutually recursive relations. */
  ghost function Size(t: Ty): nat
    decreases t, 1, 0
  {
    match t
    case Sum(alts, _) => 1 + AltsSize(t, alts)
    case Product(elems, _) => 1 + ElemsSize(t, elems)
    case Generic(b, i, _, _) => 1 + Size(b) + Size(i)
    case PhantomGeneric(b, i) => 1 + Size(b) + Size(i)
    case Constraint(c, _) => 1 + Size(c)
    case _ => 1
  }

  ghost function AltsSize(parent: Ty, s: set<Ty>): nat
    requires parent.Sum? && s <= parent.alts
    decreases parent, 0, |s|
  {
    if s == {} then 0 else var x :| x in s; Size(x) + AltsSize(parent, s - {x})
  }

  ghost function ElemsSize(parent: Ty, s: seq<Ty>): nat
    requires parent.Product? && forall x :: x in s ==> x in parent.elems
    decreases parent, 0, |s|
  {
    if s == [] then 0 else assert s[0] in parent.elems; Size(s[0]) + ElemsSize(parent, s[1..])
  }

  lemma AltsSizeBound(parent: Ty, s: set<Ty>, x: Ty)
    requires parent.Sum? && s <= parent.alts && x in s
    ensures Size(x) <= AltsSize(parent, s)
    decreases s
  {
    var y :| y in s && AltsSize(parent, s) == Size(y) + AltsSize(parent, s - {y});
    if y != x {
      AltsSizeBound(parent, s - {y}, x);
    }
  }

  lemma {:induction false} ElemsSizeBound(parent: Ty, s: seq<Ty>, i: nat)
    requires parent.Product? && (forall x :: x in s ==> x in parent.elems) && i < |s|
    ensures Size(s[i]) <= ElemsSize(parent, s)
    decreases i
  {
    assert s[0] in parent.elems;
    if i > 0 {
      assert s[1..][i - 1] == s[i];
      ElemsSizeBound(parent, s[1..], i - 1);
    }
  }

  /** An alternative of a sum is smaller than the sum. */
  lemma AltSmaller(s: Ty, x: Ty)
    requires s.Sum? && x in s.alts
    ensures Size(x) < Size(s)
  {
    AltsSizeBound(s, s.alts, x);
  }

  /** An element of a product is smaller than the product. */
  lemma ElemSmaller(p: Ty, i: nat)
    requires p.Product? && i < |p.elems|
    ensures Size(p.elems[i]) < Size(p)
  {
    ElemsSizeBound(p, p.elems, i);
  }
}
