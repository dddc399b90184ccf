/**
 * Conformance of a value to a type: the `validate_instance` / `test_instance`
 * methods of the validating kinds.
 *
 * `Check` is the specification: the outcome of `t.validate_instance(v)`, which
 * either returns normally (`Pass`), raises a `TypeMismatchError` (`Reject`), or
 * raises some other exception (`Raise`). `ValidateInstance` is the imperative
 * version, looping over elements as the library does, proved to agree with it.
 */
module Conformance {
  import opened Values
  import opened Types

  /** The `TypeMismatchError`s (including `LengthMismatchError`). */
  datatype Mismatch =
    | TypeMismatch(value: Value, expected: Ty)    // TypeMismatchError(obj, self)
    | NotATuple(value: Value)                     // TypeMismatchError(obj, tuple)
    | LengthMismatch(expected: Ty, value: Value)  // LengthMismatchError(self, obj)

  /** Exceptions other than a type mismatch, which pass through `test_instance`. */
  datatype Fault =
    | NotAValidator      // the type has no `validate_instance`
    | PredicateError     // a predicate applied to a value it cannot compare
    | MalformedDictItem  // a dict type whose item is not a pair of types
    | NotIterable        // `for x in v` or `v.items()` on a value without them

  datatype Outcome = Pass | Reject(mismatch: Mismatch) | Raise(fault: Fault)

  /** `test_instance`: a mismatch answers False, any other exception propagates. */
  datatype Answer = Yes | No | Error(fault: Fault)

  function TestInstance(t: Ty, v: Value, isSub: Hierarchy): (r: Answer)
    ensures r == Yes <==> Check(t, v, isSub) == Pass
    ensures r == No <==> Check(t, v, isSub).Reject?
    ensures r.Error? <==> Check(t, v, isSub).Raise?
  {
    match Check(t, v, isSub)
    case Pass => Yes
    case Reject(_) => No
    case Raise(f) => Error(f)
  }

  /** Whether a predicate holds of a value; None when applying it raises. */
  function Holds(p: Pred, v: Value): (r: Option<bool>)
    ensures p.AtLeast? ==> (r.Some? <==> v.IntVal?) && (r.Some? ==> (r.value <==> v.n >= p.min))
    ensures p.AtMost? ==> (r.Some? <==> v.IntVal?) && (r.Some? ==> (r.value <==> v.n <= p.max))
    ensures p.MinLength? ==> (r.Some? <==> Len(v).Some?) && (r.Some? ==> (r.value <==> Len(v).value >= p.minLen))
    ensures p.MaxLength? ==> (r.Some? <==> Len(v).Some?) && (r.Some? ==> (r.value <==> Len(v).value <= p.maxLen))
  {
    match p
    case AtLeast(m) => if v.IntVal? then Some(v.n >= m) else None
    case AtMost(m) => if v.IntVal? then Some(v.n <= m) else None
    case MinLength(m) => if Len(v).Some? then Some(Len(v).value >= m) else None
    case MaxLength(m) => if Len(v).Some? then Some(Len(v).value <= m) else None
  }

  /** The outcome of running checks in order, stopping at the first that fails. */
  function FirstFailure(outs: seq<Outcome>): (r: Outcome)
    ensures r == Pass <==> forall i | 0 <= i < |outs| :: outs[i] == Pass
    ensures r != Pass ==> exists k | 0 <= k < |outs| :: r == outs[k] && forall i | 0 <= i < k :: outs[i] == Pass
  {
    if |outs| == 0 then Pass
    else if outs[0] != Pass then outs[0]
    else
      var r := FirstFailure(outs[1..]);
      assert forall i | 1 <= i < |outs| :: outs[i] == outs[1..][i - 1];
      if r != Pass then
        var k :| 0 <= k < |outs[1..]| && r == outs[1..][k] && forall i | 0 <= i < k :: outs[1..][i] == Pass;
        assert r == outs[k + 1] && forall i | 0 <= i < k + 1 :: outs[i] == Pass;
        r
      else r
  }

  /** The predicates of a constraint, applied in order. */
  function PredicateOutcome(preds: seq<Pred>, v: Value, c: Ty): (r: Outcome)
    ensures r == Pass <==> forall i | 0 <= i < |preds| :: Holds(preds[i], v) == Some(true)
    ensures r.Reject? ==> r.mismatch == TypeMismatch(v, c)
  {
    if |preds| == 0 then Pass
    else match Holds(preds[0], v)
      case None => Raise(PredicateError)
      case Some(false) => Reject(TypeMismatch(v, c))
      case Some(true) =>
        var r := PredicateOutcome(preds[1..], v, c);
        assert forall i | 1 <= i < |preds| :: preds[i] == preds[1..][i - 1];
        r
  }

  /** The exception a sum propagates when no alternative accepts the value:
    * the library asks each alternative in frozenset order, so which exception
    * surfaces first is not determined; the model fixes an order of kinds. */
  function SumFault(outs: set<Outcome>): (f: Fault)
    requires exists o :: o in outs && o.Raise?
    ensures Raise(f) in outs
  {
    if Raise(NotAValidator) in outs then NotAValidator
    else if Raise(PredicateError) in outs then PredicateError
    else if Raise(MalformedDictItem) in outs then MalformedDictItem
    else
      var o :| o in outs && o.Raise?;
      assert o.fault == NotIterable;
      NotIterable
  }

  /** `any(t.test_instance(obj) for t in self.types)`, raising a mismatch when
    * none accepts. An accepting alternative decides the answer whatever the
    * others do; an exception surfaces only when no alternative accepts. */
  function SumOutcome(outs: set<Outcome>, v: Value, s: Ty): (r: Outcome)
    ensures r == Pass <==> Pass in outs
    ensures r.Raise? <==> Pass !in outs && exists o :: o in outs && o.Raise?
    ensures r.Raise? ==> r in outs
    ensures r.Reject? ==> r.mismatch == TypeMismatch(v, s)
  {
    if Pass in outs then Pass
    else if exists o :: o in outs && o.Raise? then Raise(SumFault(outs))
    else Reject(TypeMismatch(v, s))
  }

  /** The outcome of `t.validate_instance(v)`. */
  function Check(t: Ty, v: Value, isSub: Hierarchy): Outcome
    decreases t, 0
  {
    match t
    case Any(Py) => Pass
    case Data(k) =>
      if IsInstance(v, k, isSub) then Pass else Reject(TypeMismatch(v, t))
    case Tuple =>
      if IsInstance(v, TupleClass, isSub) then Pass else Reject(TypeMismatch(v, t))
    case OneOf(values) =>
      if IsIn(v, values) then Pass else Reject(TypeMismatch(v, t))
    case Product(ts, Py) =>
      if !IsInstance(v, TupleClass, isSub) then Reject(NotATuple(v))
      else if Elements(v).None? then Raise(NotIterable)
      else
        var items := Elements(v).value;
        if |ts| > 0 && |items| != |ts| then Reject(LengthMismatch(t, v))
        else
          var n := if |ts| < |items| then |ts| else |items|;
          FirstFailure(seq(n, i requires 0 <= i < n => Check(ts[i], items[i], isSub)))
    case Sum(alts, Py) =>
      SumOutcome(set a | a in alts :: Check(a, v, isSub), v, t)
    case Generic(base, item, _, SequenceContainer) =>
      var b := Check(base, v, isSub);
      if b != Pass then b else SequenceItems(item, v, isSub)
    case Generic(base, item, _, DictContainer) =>
      var b := Check(base, v, isSub);
      if b != Pass then b else DictItems(item, v, isSub)
    case Constraint(ct, preds) =>
      var b := Check(ct, v, isSub);
      if b != Pass then b else PredicateOutcome(preds, v, t)
    case _ =>
      // atoms, phantoms, phantom generics, base generics and the base_types
      // Any, sums and products have no validate_instance
      Raise(NotAValidator)
  }

  /** A sequence type's elements, once its base accepts: nothing to check for
    * item `pytypes.Any`, else every element against the item, in order. */
  function SequenceItems(item: Ty, v: Value, isSub: Hierarchy): Outcome
    decreases item, 2
  {
    if item == PyAny then Pass
    else if Elements(v).None? then Raise(NotIterable)
    else FirstFailure(ItemOutcomes(item, Elements(v).value, isSub))
  }

  /** The outcome of the item type on every element, in order. */
  function ItemOutcomes(item: Ty, xs: seq<Value>, isSub: Hierarchy): (r: seq<Outcome>)
    ensures |r| == |xs| && forall i | 0 <= i < |xs| :: r[i] == Check(item, xs[i], isSub)
    decreases item, 1
  {
    seq(|xs|, i requires 0 <= i < |xs| => Check(item, xs[i], isSub))
  }

  /** A dict type's entries, once its base accepts: nothing to check for item
    * `pytypes.Any`, an error unless the item is a pair, else every key and every value
    * against the pair's types, entry by entry. */
  function DictItems(item: Ty, v: Value, isSub: Hierarchy): Outcome
    decreases item, 2
  {
    if item == PyAny then Pass
    else if !(item.Product? && |item.elems| == 2) then Raise(MalformedDictItem)
    else if !v.DictVal? then Raise(NotIterable)
    else FirstFailure(EntryOutcomes(item, v.entries, isSub))
  }

  /** The outcomes of the pair's key type and value type on every entry, key
    * first, entry by entry. */
  function EntryOutcomes(item: Ty, es: seq<(Value, Value)>, isSub: Hierarchy): (r: seq<Outcome>)
    requires item.Product? && |item.elems| == 2
    ensures |r| == 2 * |es|
    ensures forall j | 0 <= j < 2 * |es| ::
      r[j] == if j % 2 == 0 then Check(item.elems[0], es[j / 2].0, isSub) else Check(item.elems[1], es[j / 2].1, isSub)
    decreases item, 1
  {
    seq(2 * |es|, j requires 0 <= j < 2 * |es| =>
      if j % 2 == 0 then Check(item.elems[0], es[j / 2].0, isSub) else Check(item.elems[1], es[j / 2].1, isSub))
  }

  predicate Conforms(t: Ty, v: Value, isSub: Hierarchy) {
    Check(t, v, isSub) == Pass
  }

  /** `t.validate_instance(v)`, one method per validating kind. */
  method ValidateInstance(t: Ty, v: Value, isSub: Hierarchy) returns (r: Outcome)
    ensures r == Check(t, v, isSub)
    decreases t, 1
  {
    match t
    case Any(Py) => r := Pass;
    case Data(k) =>
      r := if IsInstance(v, k, isSub) then Pass else Reject(TypeMismatch(v, t));
    case Tuple =>
      r := if IsInstance(v, TupleClass, isSub) then Pass else Reject(TypeMismatch(v, t));
    case OneOf(values) =>
      r := if IsIn(v, values) then Pass else Reject(TypeMismatch(v, t));
    case Product(ts, Py) => r := ValidateProduct(ts, v, isSub);
    case Sum(alts, Py) => r := ValidateSum(alts, v, isSub);
    case Generic(base, item, variance, SequenceContainer) =>
      r := ValidateSequence(base, item, variance, v, isSub);
    case Generic(base, item, variance, DictContainer) =>
      r := ValidateDict(base, item, variance, v, isSub);
    case Constraint(ct, preds) => r := ValidateConstraint(ct, preds, v, isSub);
    case _ => r := Raise(NotAValidator);
  }

  /** `ProductType.validate_instance`: an instance of `tuple` (or of a subclass) of the
    * right length, element by element. */
  method ValidateProduct(ts: seq<Ty>, v: Value, isSub: Hierarchy) returns (r: Outcome)
    ensures r == Check(Product(ts, Py), v, isSub)
    decreases Product(ts, Py), 0
  {
    if !IsInstance(v, TupleClass, isSub) {
      return Reject(NotATuple(v));
    }
    if Elements(v).None? {
      return Raise(NotIterable);
    }
    var items := Elements(v).value;
    if |ts| > 0 && |items| != |ts| {
      return Reject(LengthMismatch(Product(ts, Py), v));
    }
    var n := if |ts| < |items| then |ts| else |items|;
    ghost var outs := seq(n, i requires 0 <= i < n => Check(ts[i], items[i], isSub));
    var i := 0;
    while i < n
      invariant 0 <= i <= n
      invariant forall j | 0 <= j < i :: outs[j] == Pass
    {
      var o := ValidateInstance(ts[i], items[i], isSub);
      if o != Pass {
        FirstFailureAt(outs, i);
        return o;
      }
      i := i + 1;
    }
    r := Pass;
  }

  /** `SumType.validate_instance`: the alternatives are asked one at a time and the
    * first acceptance ends the search. */
  method ValidateSum(alts: set<Ty>, v: Value, isSub: Hierarchy) returns (r: Outcome)
    ensures r == Check(Sum(alts, Py), v, isSub)
    decreases Sum(alts, Py), 0
  {
    // the outcomes seen so far, none of them an acceptance
    var seen: set<Outcome> := {};
    var rest := alts;
    while rest != {}
      invariant rest <= alts
      invariant seen == Outcomes(alts - rest, v, isSub)
      invariant Pass !in seen
      decreases |rest|
    {
      var a :| a in rest;
      var o := ValidateInstance(a, v, isSub);
      if o == Pass {
        OutcomesMember(alts, a, v, isSub);
        return Pass;
      }
      OutcomesAdd(alts - rest, a, v, isSub);
      assert alts - (rest - {a}) == (alts - rest) + {a};
      rest := rest - {a};
      seen := seen + {o};
    }
    assert alts - rest == alts;
    r := SumOutcome(seen, v, Sum(alts, Py));
  }

  /** The outcomes of checking a value against each type of a set. */
  ghost function Outcomes(s: set<Ty>, v: Value, isSub: Hierarchy): set<Outcome> {
    set a | a in s :: Check(a, v, isSub)
  }

  lemma OutcomesAdd(s: set<Ty>, a: Ty, v: Value, isSub: Hierarchy)
    ensures Outcomes(s + {a}, v, isSub) == Outcomes(s, v, isSub) + {Check(a, v, isSub)}
  {
  }

  lemma OutcomesMember(s: set<Ty>, a: Ty, v: Value, isSub: Hierarchy)
    requires a in s
    ensures Check(a, v, isSub) in Outcomes(s, v, isSub)
  {
  }

  /** `SequenceType.validate_instance`: the container, then every element unless the item is `pytypes.Any`. */
  method ValidateSequence(base: Ty, item: Ty, variance: Variance, v: Value, isSub: Hierarchy)
    returns (r: Outcome)
    ensures r == Check(Generic(base, item, variance, SequenceContainer), v, isSub)
    decreases Generic(base, item, variance, SequenceContainer), 0
  {
    ContainerCheck(base, item, variance, SequenceContainer, v, isSub);
    r := ValidateInstance(base, v, isSub);
    if r == Pass {
      r := ValidateElements(item, v, isSub);
    }
  }

  /** A container type's outcome: its base's, unless that passes, then its items'. */
  lemma ContainerCheck(base: Ty, item: Ty, variance: Variance, c: Container, v: Value, isSub: Hierarchy)
    requires c != AbstractBase
    ensures Check(Generic(base, item, variance, c), v, isSub) ==
      var b := Check(base, v, isSub);
      if b != Pass then b
      else if c == SequenceContainer then SequenceItems(item, v, isSub)
      else DictItems(item, v, isSub)
  {
  }

  /** The loop over the elements: the first element the item type does not accept decides. */
  method ValidateElements(item: Ty, v: Value, isSub: Hierarchy) returns (r: Outcome)
    ensures r == SequenceItems(item, v, isSub)
    decreases item, 2
  {
    if item == PyAny {
      return Pass;
    }
    var elems := Elements(v);
    if elems.None? {
      return Raise(NotIterable);
    }
    var xs := elems.value;
    ghost var outs := ItemOutcomes(item, xs, isSub);
    var i := 0;
    while i < |xs|
      invariant 0 <= i <= |xs|
      invariant forall j | 0 <= j < i :: outs[j] == Pass
    {
      var o := ValidateInstance(item, xs[i], isSub);
      if o != Pass {
        FirstFailureAt(outs, i);
        return o;
      }
      i := i + 1;
    }
    r := Pass;
  }

  /** `DictType.validate_instance`: the container, then every key and every value. */
  method ValidateDict(base: Ty, item: Ty, variance: Variance, v: Value, isSub: Hierarchy)
    returns (r: Outcome)
    ensures r == Check(Generic(base, item, variance, DictContainer), v, isSub)
    decreases Generic(base, item, variance, DictContainer), 0
  {
    ContainerCheck(base, item, variance, DictContainer, v, isSub);
    r := ValidateInstance(base, v, isSub);
    if r == Pass {
      r := ValidateEntries(item, v, isSub);
    }
  }

  /** The loop over the entries: key, then value, entry by entry. */
  method ValidateEntries(item: Ty, v: Value, isSub: Hierarchy) returns (r: Outcome)
    ensures r == DictItems(item, v, isSub)
    decreases item, 2
  {
    if item == PyAny {
      return Pass;
    }
    if !(item.Product? && |item.elems| == 2) {
      return Raise(MalformedDictItem);
    }
    if !v.DictVal? {
      return Raise(NotIterable);
    }
    var es := v.entries;
    ghost var outs := EntryOutcomes(item, es, isSub);
    var i := 0;
    while i < |es|
      invariant 0 <= i <= |es|
      invariant forall j | 0 <= j < 2 * i :: outs[j] == Pass
    {
      var o := ValidateInstance(item.elems[0], es[i].0, isSub);
      assert outs[2 * i] == o;
      if o != Pass {
        FirstFailureAt(outs, 2 * i);
        return o;
      }
      o := ValidateInstance(item.elems[1], es[i].1, isSub);
      assert outs[2 * i + 1] == o;
      if o != Pass {
        FirstFailureAt(outs, 2 * i + 1);
        return o;
      }
      i := i + 1;
    }
    r := Pass;
  }

  /** `Constraint.validate_instance`: the base type, then each predicate in order. */
  method ValidateConstraint(ct: Ty, preds: seq<Pred>, v: Value, isSub: Hierarchy) returns (r: Outcome)
    ensures r == Check(Constraint(ct, preds), v, isSub)
    decreases Constraint(ct, preds), 0
  {
    ConstraintCheck(ct, preds, v, isSub);
    r := ValidateInstance(ct, v, isSub);
    if r == Pass {
      r := ValidatePredicates(preds, v, Constraint(ct, preds));
    }
  }

  /** A constraint's outcome: its base type's, unless that passes, then its predicates'. */
  lemma ConstraintCheck(ct: Ty, preds: seq<Pred>, v: Value, isSub: Hierarchy)
    ensures Check(Constraint(ct, preds), v, isSub) ==
      var b := Check(ct, v, isSub);
      if b != Pass then b else PredicateOutcome(preds, v, Constraint(ct, preds))
  {
  }

  /** The loop over the predicates: the first that fails or raises decides. */
  method ValidatePredicates(preds: seq<Pred>, v: Value, c: Ty) returns (r: Outcome)
    ensures r == PredicateOutcome(preds, v, c)
  {
    var i := 0;
    while i < |preds|
      invariant 0 <= i <= |preds|
      invariant PredicateOutcome(preds, v, c) == PredicateOutcome(preds[i..], v, c)
    {
      var h := Holds(preds[i], v);
      if h.None? {
        return Raise(PredicateError);
      }
      if !h.value {
        return Reject(TypeMismatch(v, c));
      }
      assert preds[i..][1..] == preds[i + 1..];
      i := i + 1;
    }
    r := Pass;
  }

  /** When the checks before position k pass and check k fails, the first failure is check k. */
  lemma {:induction false} FirstFailureAt(outs: seq<Outcome>, k: nat)
    requires k < |outs| && outs[k] != Pass
    requires forall i | 0 <= i < k :: outs[i] == Pass
    ensures FirstFailure(outs) == outs[k]
    decreases k
  {
    if k > 0 {
      assert outs[1..][k - 1] == outs[k];
      FirstFailureAt(outs[1..], k - 1);
    }
  }
}
