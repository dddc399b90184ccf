/**
 * The smart constructors of the type kinds: `a + b` and `SumType.create`,
 * `a * b` and `ProductType.create`, the OneOf-merging `SumType.__init__` of
 * the Python types, generic subscription, the constants of the Python type
 * system, and the `Int(min, max)` / `String(min_length, max_length)` builders.
 */
module Constructors {
  import opened Values
  import opened Types
  import opened Conformance
  import opened Relation
  import opened ConformanceLemmas
  import opened RelationLemmas

  /** The exceptions a constructor or `to_canon` can raise. */
  datatype Exc =
    | TypeErr                   // a generic parameterised with an item that is not below its item
    | RelationFailed(e: Error)  // the `<=` consulted on the way raised
    | AssertionErr              // a failed `assert` in `DictType`
    | ValueErr                  // a malformed `Tuple[..., ...]`, or unpacking the wrong number of arguments
    | NotImplementedErr         // a `typing` form without a canonical type
    | RuntimeErr                // a forward reference with no frame to evaluate it in

  datatype Result<+T> = Made(value: T) | Raised(exc: Exc)

  // ---------------------------------------------------------------------------
  // Sums: SumType.create and `+`

  /** What a type contributes to `SumType.create`: a sum its alternatives, any other type itself. */
  function Members(t: Ty): (m: set<Ty>)
    ensures t.Sum? ==> m == t.alts
    ensures !t.Sum? ==> m == {t}
  {
    if t.Sum? then t.alts else {t}
  }

  /** The set `x` that `SumType.create` collects from its arguments. */
  function Collected(types: seq<Ty>): (x: set<Ty>)
    ensures forall u :: u in x <==> exists i | 0 <= i < |types| :: u in Members(types[i])
  {
    if types == [] then {}
    else
      var init := types[..|types| - 1];
      assert forall i | 0 <= i < |init| :: init[i] == types[i];
      Collected(init) + Members(types[|types| - 1])
  }

  /** `SumType([x]) is x`: one alternative is the type itself. Otherwise the
    * sum is of `base_types.SumType`, the class `create` is called on. */
  ghost function SumOf(x: set<Ty>): Ty {
    if |x| == 1 then var e :| e in x; e else Sum(x, Base)
  }

  lemma SingletonIs(x: set<Ty>, e: Ty)
    requires |x| == 1 && e in x
    ensures x == {e}
  {
    assert |x - {e}| == 0;
  }

  /** The first argument that is an Any, of either layer. */
  function FirstAny(types: seq<Ty>): (r: Option<Ty>)
    ensures r.None? <==> forall i | 0 <= i < |types| :: !types[i].Any?
    ensures r.Some? ==> r.value.Any? && r.value in types
  {
    if types == [] then None
    else if types[0].Any? then Some(types[0])
    else FirstAny(types[1..])
  }

  lemma {:induction false} FirstAnyAt(types: seq<Ty>, i: nat)
    requires i < |types| && types[i].Any?
    requires forall j | 0 <= j < i :: !types[j].Any?
    ensures FirstAny(types) == Some(types[i])
    decreases i
  {
    if i > 0 {
      FirstAnyAt(types[1..], i - 1);
    }
  }

  /** The specification of `SumType.create(types)`: the first Any met, else
    * the collected alternatives. */
  ghost function SumCreated(types: seq<Ty>): Ty {
    if FirstAny(types).Some? then FirstAny(types).value else SumOf(Collected(types))
  }

  /** `SumType.create`: a loop that collects alternatives, stopping at the first Any. */
  method SumCreate(types: seq<Ty>) returns (r: Ty)
    ensures r == SumCreated(types)
  {
    var x: set<Ty> := {};
    for i := 0 to |types|
      invariant x == Collected(types[..i])
      invariant forall j | 0 <= j < i :: !types[j].Any?
    {
      var t := types[i];
      assert types[..i + 1][..i] == types[..i];
      if t.Sum? {
        x := x + t.alts;
      } else if t.Any? {
        FirstAnyAt(types, i);
        return t;
      } else {
        x := x + {t};
      }
    }
    assert types[..|types|] == types;
    if |x| == 1 {
      var e :| e in x;
      SingletonIs(x, e);
      return e;
    }
    r := Sum(x, Base);
  }

  /** `a + b`; `Any + b` is that Any itself. */
  ghost function Plus(a: Ty, b: Ty): Ty {
    if a.Any? then a else SumCreated([a, b])
  }

  lemma PlusUnfold(a: Ty, b: Ty)
    ensures Plus(a, b) == if a.Any? then a else if b.Any? then b else SumOf(Members(a) + Members(b))
  {
    assert Collected([a, b]) == Members(a) + Members(b);
  }

  /** Any absorbs: `Any + Int == Any`, `Int + Any == Any`. */
  lemma PlusAny(l: Layer, t: Ty)
    ensures Plus(Any(l), t) == Any(l)
    ensures !t.Any? ==> Plus(t, Any(l)) == Any(l)
  {
    PlusUnfold(t, Any(l));
  }

  /** `List + Dict == Dict + List`; only two distinct Anys do not commute,
    * since the left one is kept. */
  lemma PlusCommutes(a: Ty, b: Ty)
    ensures Plus(a, b) == Plus(b, a) <==> !(a.Any? && b.Any? && a != b)
  {
    PlusUnfold(a, b);
    PlusUnfold(b, a);
    assert Members(a) + Members(b) == Members(b) + Members(a);
  }

  /** `List + List == List`: a type that is not a sum is its own double. */
  lemma PlusIdempotent(t: Ty)
    requires !t.Sum?
    ensures Plus(t, t) == t
  {
    PlusUnfold(t, t);
    if !t.Any? {
      SingletonIs({t}, t);
    }
  }

  /** `Any + ((Any + Any) + Any) is Any` */
  lemma AnyPlusNested(l: Layer)
    ensures Plus(Any(l), Plus(Plus(Any(l), Any(l)), Any(l))) == Any(l)
  {
  }

  /** Conformance through `+`. An Any operand is the result, which validates
    * only when it is pytypes' Any. Otherwise the result is a sum of
    * `base_types.SumType`, which has no `validate_instance`, unless the
    * operands contribute a single alternative, which is the result. */
  lemma PlusConforms(a: Ty, b: Ty, v: Value, isSub: Hierarchy)
    ensures a.Any? ==> (Conforms(Plus(a, b), v, isSub) <==> a == PyAny)
    ensures !a.Any? && b.Any? ==> (Conforms(Plus(a, b), v, isSub) <==> b == PyAny)
    ensures !a.Any? && !b.Any? && |Members(a) + Members(b)| != 1 ==>
      TestInstance(Plus(a, b), v, isSub) == Error(NotAValidator)
    ensures !a.Any? && !b.Any? && |Members(a) + Members(b)| == 1 ==>
      (Conforms(Plus(a, b), v, isSub) <==> exists u | u in Members(a) + Members(b) :: Conforms(u, v, isSub))
  {
    PlusUnfold(a, b);
    if !a.Any? && !b.Any? {
      SumOfConforms(Members(a) + Members(b), v, isSub);
    }
  }

  /** `SumType([x])` is x itself; any other set makes a base sum, which raises
    * when asked to validate. */
  lemma SumOfConforms(x: set<Ty>, v: Value, isSub: Hierarchy)
    ensures |x| != 1 ==> TestInstance(SumOf(x), v, isSub) == Error(NotAValidator)
    ensures |x| == 1 ==> (Conforms(SumOf(x), v, isSub) <==> exists u | u in x :: Conforms(u, v, isSub))
  {
    if |x| == 1 {
      var e :| e in x && SumOf(x) == e;
      SingletonIs(x, e);
    }
  }

  /** A type conforms exactly when one of its members does, unless it is a base
    * sum, which raises. */
  lemma MembersConform(t: Ty, v: Value, isSub: Hierarchy)
    ensures !(t.Sum? && t.layer == Base) ==>
      (Conforms(t, v, isSub) <==> exists u | u in Members(t) :: Conforms(u, v, isSub))
    ensures t.Sum? && t.layer == Base ==> TestInstance(t, v, isSub) == Error(NotAValidator)
  {
    if t.Sum? && t.layer == Py {
      SumConformsIff(t.alts, v, isSub);
    }
  }

  /** None of the types is a base sum. */
  predicate NoBaseSums(types: seq<Ty>) {
    forall i | 0 <= i < |types| :: !(types[i].Sum? && types[i].layer == Base)
  }

  /** Conformance to `SumType.create(types)`: the first Any validates only when
    * it is pytypes' Any; without one, a single collected alternative is the
    * result and a value conforms iff it conforms to one of the types (when
    * none is a base sum), and several make a base sum, which raises. */
  lemma SumCreatedConforms(types: seq<Ty>, v: Value, isSub: Hierarchy)
    ensures FirstAny(types).Some? ==> (Conforms(SumCreated(types), v, isSub) <==> FirstAny(types) == Some(PyAny))
    ensures FirstAny(types).None? && |Collected(types)| != 1 ==>
      TestInstance(SumCreated(types), v, isSub) == Error(NotAValidator)
    ensures FirstAny(types).None? && |Collected(types)| == 1 && NoBaseSums(types) ==>
      (Conforms(SumCreated(types), v, isSub) <==> exists i | 0 <= i < |types| :: Conforms(types[i], v, isSub))
  {
    if FirstAny(types).Some? {
      AnyConforms(FirstAny(types).value, v, isSub);
    } else {
      SumOfConforms(Collected(types), v, isSub);
      if |Collected(types)| == 1 && NoBaseSums(types) {
        CollectedConforms(types, v, isSub);
      }
    }
  }

  /** Only pytypes' Any validates. */
  lemma AnyConforms(a: Ty, v: Value, isSub: Hierarchy)
    requires a.Any?
    ensures Conforms(a, v, isSub) <==> a == PyAny
  {
    if a.layer == Py {
      assert a == PyAny;
    } else {
      assert a == BaseAny;
    }
  }

  /** Some collected alternative accepts a value iff one of the types does,
    * when none of them is a base sum. */
  lemma CollectedConforms(types: seq<Ty>, v: Value, isSub: Hierarchy)
    requires NoBaseSums(types)
    ensures (exists u | u in Collected(types) :: Conforms(u, v, isSub)) <==>
      exists i | 0 <= i < |types| :: Conforms(types[i], v, isSub)
  {
    var x := Collected(types);
    forall i | 0 <= i < |types| ensures Conforms(types[i], v, isSub) ==> exists u | u in x :: Conforms(u, v, isSub) {
      MembersConform(types[i], v, isSub);
    }
    if exists u | u in x :: Conforms(u, v, isSub) {
      var u :| u in x && Conforms(u, v, isSub);
      var i :| 0 <= i < |types| && u in Members(types[i]);
      MembersConform(types[i], v, isSub);
    }
  }

  /** Sums whose alternatives are neither sums nor Any: what `+` builds from such types. */
  predicate Flat(t: Ty) {
    t.Sum? ==> forall u | u in t.alts :: !u.Sum? && !u.Any?
  }

  lemma SumOfFlat(x: set<Ty>)
    requires forall u | u in x :: !u.Sum? && !u.Any?
    ensures Flat(SumOf(x)) && !SumOf(x).Any?
    ensures Members(SumOf(x)) == x
  {
    if |x| == 1 {
      var e :| e in x && SumOf(x) == e;
      SingletonIs(x, e);
    }
  }

  /** `+` keeps types flat. */
  lemma PlusFlat(a: Ty, b: Ty)
    requires Flat(a) && Flat(b)
    ensures Flat(Plus(a, b))
    ensures !a.Any? && !b.Any? ==> !Plus(a, b).Any? && Members(Plus(a, b)) == Members(a) + Members(b)
  {
    PlusUnfold(a, b);
    if !a.Any? && !b.Any? {
      SumOfFlat(Members(a) + Members(b));
    }
  }

  /** `(List + Dict) + Int == List + (Dict + Int)` on flat types. */
  lemma PlusAssociative(a: Ty, b: Ty, c: Ty)
    requires Flat(a) && Flat(b) && Flat(c)
    ensures Plus(Plus(a, b), c) == Plus(a, Plus(b, c))
  {
    PlusFlat(a, b);
    PlusFlat(b, c);
    PlusUnfold(Plus(a, b), c);
    PlusUnfold(a, Plus(b, c));
    if !a.Any? && !b.Any? && !c.Any? {
      assert (Members(a) + Members(b)) + Members(c) == Members(a) + (Members(b) + Members(c));
    } else if a.Any? {
    } else if b.Any? {
      PlusUnfold(a, b);
      PlusUnfold(b, c);
    } else {
      PlusUnfold(b, c);
      PlusUnfold(a, c);
    }
  }

  // ---------------------------------------------------------------------------
  // Products: ProductType.create and `*`

  /** What a type contributes to `ProductType.create`: a product, of either
    * layer, its elements. */
  function Parts(t: Ty): (p: seq<Ty>)
    ensures t.Product? ==> p == t.elems
    ensures !t.Product? ==> p == [t]
  {
    if t.Product? then t.elems else [t]
  }

  /** The list `x` that `ProductType.create` builds from its arguments. */
  function Flattened(types: seq<Ty>): seq<Ty> {
    if types == [] then [] else Flattened(types[..|types| - 1]) + Parts(types[|types| - 1])
  }

  lemma {:induction false} FlattenedAppend(s: seq<Ty>, t: seq<Ty>)
    ensures Flattened(s + t) == Flattened(s) + Flattened(t)
    decreases |t|
  {
    if t != [] {
      var last := t[|t| - 1];
      assert (s + t)[..|s + t| - 1] == s + t[..|t| - 1];
      FlattenedAppend(s, t[..|t| - 1]);
    } else {
      assert s + t == s;
    }
  }

  /** `ProductType.create`: a loop that appends each type, or the elements of a
    * product, into a product of `base_types.ProductType`. */
  method ProductCreate(types: seq<Ty>) returns (r: Ty)
    ensures r == Product(Flattened(types), Base)
  {
    var x: seq<Ty> := [];
    for i := 0 to |types|
      invariant x == Flattened(types[..i])
    {
      assert types[..i + 1][..i] == types[..i];
      var t := types[i];
      if t.Product? {
        x := x + t.elems;
      } else {
        x := x + [t];
      }
    }
    assert types[..|types|] == types;
    r := Product(x, Base);
  }

  /** `a * b` */
  function Times(a: Ty, b: Ty): Ty {
    Product(Flattened([a, b]), Base)
  }

  /** `a * b` holds the parts of a, then those of b. */
  lemma TimesParts(a: Ty, b: Ty)
    ensures Times(a, b) == Product(Parts(a) + Parts(b), Base)
  {
    assert [a, b][..1] == [a];
    assert [a][..0] == [];
    assert Flattened([a]) == Parts(a);
  }

  /** `(Int * Dict) * List == Int * (Dict * List)`. */
  lemma TimesAssociative(a: Ty, b: Ty, c: Ty)
    ensures Times(Times(a, b), c) == Times(a, Times(b, c))
  {
    calc {
      Times(Times(a, b), c);
    == { TimesParts(Times(a, b), c); }
      Product(Parts(Times(a, b)) + Parts(c), Base);
    == { TimesParts(a, b); }
      Product((Parts(a) + Parts(b)) + Parts(c), Base);
    == { assert (Parts(a) + Parts(b)) + Parts(c) == Parts(a) + (Parts(b) + Parts(c)); }
      Product(Parts(a) + (Parts(b) + Parts(c)), Base);
    == { TimesParts(b, c); }
      Product(Parts(a) + Parts(Times(b, c)), Base);
    == { TimesParts(a, Times(b, c)); }
      Times(a, Times(b, c));
    }
  }

  /** A product built by `create` holds its arguments' parts in order. */
  lemma ProductCreatedParts(types: seq<Ty>)
    ensures |Flattened(types)| >= |types| - Count(types)
    ensures forall i | 0 <= i < |types| && !types[i].Product? :: types[i] in Flattened(types)
  {
    FlattenedMembers(types);
  }

  function Count(types: seq<Ty>): nat {
    if types == [] then 0 else (if types[0].Product? then 1 else 0) + Count(types[1..])
  }

  lemma {:induction false} FlattenedMembers(types: seq<Ty>)
    ensures |Flattened(types)| >= |types| - Count(types)
    ensures forall i | 0 <= i < |types| && !types[i].Product? :: types[i] in Flattened(types)
    decreases |types|
  {
    if types != [] {
      FlattenedAppend([types[0]], types[1..]);
      assert [types[0]] + types[1..] == types;
      assert [types[0]][..0] == [];
      FlattenedMembers(types[1..]);
      forall i | 1 <= i < |types| ensures types[i] == types[1..][i - 1] {}
    }
  }

  // ---------------------------------------------------------------------------
  // SumType.__init__ of the Python types: merging literals

  function OneOfs(ts: seq<Ty>): (r: seq<Ty>)
    ensures forall u :: u in r <==> u in ts && u.OneOf?
  {
    if ts == [] then [] else (if ts[0].OneOf? then [ts[0]] else []) + OneOfs(ts[1..])
  }

  function Others(ts: seq<Ty>): (r: seq<Ty>)
    ensures forall u :: u in r <==> u in ts && !u.OneOf?
  {
    if ts == [] then [] else (if ts[0].OneOf? then [] else [ts[0]]) + Others(ts[1..])
  }

  /** `[v for t in one_ofs for v in t.values]` */
  function MergedValues(lits: seq<Ty>): (vs: seq<Value>)
    requires forall u | u in lits :: u.OneOf?
    ensures forall v :: v in vs <==> exists u | u in lits :: v in u.values
  {
    if lits == [] then [] else lits[0].values + MergedValues(lits[1..])
  }

  /** The merged literal holds a value, up to `==`, iff one of the literals does. */
  lemma {:induction false} MergedValuesIsIn(lits: seq<Ty>, v: Value)
    requires forall u | u in lits :: u.OneOf?
    ensures IsIn(v, MergedValues(lits)) <==> exists u | u in lits :: IsIn(v, u.values)
    decreases |lits|
  {
    if lits != [] {
      MergedValuesIsIn(lits[1..], v);
      IsInConcat(v, lits[0].values, MergedValues(lits[1..]));
      assert forall u :: u in lits <==> u == lits[0] || u in lits[1..];
    }
  }

  function SetOfTys(ts: seq<Ty>): (s: set<Ty>)
    ensures forall u :: u in s <==> u in ts
  {
    set u | u in ts
  }

  /** `SumType(types)`: two or more literals are merged into one literal over all their
    * values, placed after the other types. */
  function SumInit(ts: seq<Ty>): (r: Ty)
    ensures r.Sum? && r.layer == Py
    ensures forall u: Ty | !u.OneOf? :: u in r.alts <==> u in ts
  {
    var lits := OneOfs(ts);
    if |lits| > 1 then Sum(SetOfTys(Others(ts)) + {OneOf(MergedValues(lits))}, Py)
    else Sum(SetOfTys(ts), Py)
  }

  /** After `SumType.__init__` a sum holds at most one literal. */
  lemma SumInitOneLiteral(ts: seq<Ty>)
    ensures forall u, w | u in SumInit(ts).alts && w in SumInit(ts).alts && u.OneOf? && w.OneOf? :: u == w
  {
    var lits := OneOfs(ts);
    if |lits| <= 1 {
      forall u, w | u in ts && w in ts && u.OneOf? && w.OneOf? ensures u == w {
        assert u in lits && w in lits;
        if |lits| == 0 {
        } else {
          assert lits == [lits[0]];
        }
      }
    }
  }

  /** Merging literals does not change which values the sum accepts. */
  lemma SumInitConforms(ts: seq<Ty>, v: Value, isSub: Hierarchy)
    ensures Conforms(SumInit(ts), v, isSub) <==> exists i | 0 <= i < |ts| :: Conforms(ts[i], v, isSub)
  {
    SumConformsIff(SumInit(ts).alts, v, isSub);
    SumInitAlternatives(ts, v, isSub);
  }

  /** Some alternative of the sum accepts the value exactly when one of the
    * types it was built from does. */
  lemma SumInitAlternatives(ts: seq<Ty>, v: Value, isSub: Hierarchy)
    ensures (exists a | a in SumInit(ts).alts :: Conforms(a, v, isSub)) <==>
      exists i | 0 <= i < |ts| :: Conforms(ts[i], v, isSub)
  {
    var accepts := (u: Ty) => Conforms(u, v, isSub);
    SumInitAccepts(ts, v, accepts);
    assert forall i | 0 <= i < |ts| :: accepts(ts[i]) == Conforms(ts[i], v, isSub);
  }

  /** The same, for any acceptance test under which a literal accepts its values. */
  lemma SumInitAccepts(ts: seq<Ty>, v: Value, accepts: Ty -> bool)
    requires forall u: Ty | u.OneOf? :: accepts(u) == IsIn(v, u.values)
    ensures (exists a | a in SumInit(ts).alts :: accepts(a)) <==> exists i | 0 <= i < |ts| :: accepts(ts[i])
  {
    var alts := SumInit(ts).alts;
    var lits := OneOfs(ts);
    if |lits| > 1 {
      var merged := OneOf(MergedValues(lits));
      assert alts == SetOfTys(Others(ts)) + {merged};
      MergedValuesIsIn(lits, v);
      forall a | a in alts && accepts(a) ensures exists i | 0 <= i < |ts| :: accepts(ts[i]) {
        if a == merged {
          var u :| u in lits && IsIn(v, u.values);
          var i :| 0 <= i < |ts| && ts[i] == u;
          assert accepts(ts[i]);
        } else {
          var i :| 0 <= i < |ts| && ts[i] == a;
        }
      }
      forall i | 0 <= i < |ts| && accepts(ts[i]) ensures exists a | a in alts :: accepts(a) {
        if ts[i].OneOf? {
          assert ts[i] in lits;
          assert accepts(merged);
        } else {
          assert ts[i] in alts;
        }
      }
    } else {
      forall i | 0 <= i < |ts| && accepts(ts[i]) ensures exists a | a in alts :: accepts(a) {
        assert ts[i] in alts;
      }
    }
  }

  // ---------------------------------------------------------------------------
  // Generics

  /** `g[item]` for a generic g: `GenericType(g, item, g.variance)`, which checks that the
    * new item is below g's item and takes g's base. */
  function GenericOf(g: Ty, item: Ty, isSub: Hierarchy): (r: Result<Ty>)
    requires g.Generic?
    ensures r.Made? <==> Le(item, g.item, isSub) == Ok(true)
    ensures r.Made? ==> r.value == Generic(g.base, item, g.variance, g.container)
    ensures Le(item, g.item, isSub) == Ok(false) ==> r == Raised(TypeErr)
  {
    match Le(item, g.item, isSub)
    case Err(e) => Raised(RelationFailed(e))
    case Ok(false) => Raised(TypeErr)
    case Ok(true) => Made(Generic(g.base, item, g.variance, g.container))
  }

  /** A generic whose item is Any accepts every item, `List[x]`, except that
    * Tuple is not below `base_types.Any`. */
  lemma GenericOfAnyItem(g: Ty, item: Ty, isSub: Hierarchy)
    requires g.Generic? && g.item.Any?
    ensures GenericOf(g, item, isSub) ==
      if g.item == BaseAny && item.Tuple? then Raised(TypeErr)
      else Made(Generic(g.base, item, g.variance, g.container))
  {
    LeAny(item, isSub);
    if g.item.layer == Base {
      assert g.item == BaseAny;
    } else {
      assert g.item == PyAny;
    }
  }

  /** `Array[Any] == Array` */
  lemma GenericOfAnyIsSame(g: Ty, isSub: Hierarchy)
    requires g.Generic? && g.item.Any?
    ensures GenericOf(g, g.item, isSub) == Made(g)
  {
    GenericOfAnyItem(g, g.item, isSub);
  }

  /** `Array[Int] <= Array[Any]`: a covariant refinement is below what it refines. */
  lemma GenericOfIsBelow(g: Ty, item: Ty, isSub: Hierarchy)
    requires g.Generic? && g.base.Data? && g.variance == Covariant && Reflexive(isSub)
    requires GenericOf(g, item, isSub).Made?
    ensures Le(GenericOf(g, item, isSub).value, g, isSub) == Ok(true)
  {
    var r := GenericOf(g, item, isSub).value;
    GenericPairLe(r, g, isSub);
    DataLe(g.base.kernel, g.base.kernel, isSub);
  }

  /** The argument of `DictType.__getitem__`: a pair of types or a single object. */
  datatype DictArg = PairArg(types: seq<Ty>) | SingleArg(t: Ty)

  /** `Dict[k, v]`: only an unparameterised dict type (item `Any * Any`) can be
    * subscripted, and a tuple argument must be a pair, which becomes a product
    * of pytypes' `ProductType`. */
  function DictOf(d: Ty, arg: DictArg): (r: Result<Ty>)
    requires d.Generic?
    ensures r.Made? <==> Eq(d.item, Times(PyAny, PyAny)) && (arg.PairArg? ==> |arg.types| == 2)
    ensures r.Made? && arg.PairArg? ==> r.value == Generic(d.base, Product(arg.types, Py), d.variance, DictContainer)
    ensures r.Made? && arg.SingleArg? ==> r.value == Generic(d.base, arg.t, d.variance, DictContainer)
  {
    if !Eq(d.item, Times(PyAny, PyAny)) then Raised(AssertionErr)
    else match arg
      case PairArg(ts) =>
        if |ts| != 2 then Raised(AssertionErr)
        else Made(Generic(d.base, Product(ts, Py), d.variance, DictContainer))
      case SingleArg(t) => Made(Generic(d.base, t, d.variance, DictContainer))
  }

  // ---------------------------------------------------------------------------
  // The constants of the Python type system

  const ObjectT: Ty := Data("object")
  const IterT: Ty := Generic(Data("Iterable"), PyAny, Covariant, SequenceContainer)
  const ListT: Ty := Generic(Data("list"), PyAny, Invariant, SequenceContainer)
  const SequenceT: Ty := Generic(Data("Sequence"), PyAny, Covariant, SequenceContainer)
  const SetT: Ty := Generic(Data("set"), PyAny, Invariant, SequenceContainer)
  const FrozenSetT: Ty := Generic(Data("frozenset"), PyAny, Covariant, SequenceContainer)
  const DictT: Ty := Generic(Data("dict"), Product([PyAny, PyAny], Base), Invariant, DictContainer)
  const MappingT: Ty := Generic(Data("Mapping"), Product([PyAny, PyAny], Base), Covariant, DictContainer)
  const TupleT: Ty := Tuple
  const TupleEllipsisT: Ty := Generic(Data("tuple"), PyAny, Covariant, SequenceContainer)
  const BytesT: Ty := Data("bytes")
  const CallableT: Ty := Data("Callable")
  const StringT: Ty := Data(StrClass)
  const IntT: Ty := Data("int")
  const FloatT: Ty := Data("float")
  const NoneTypeT: Ty := OneOf([NoneVal])
  const DateTimeT: Ty := Data("datetime")
  const DateT: Ty := Data("date")
  const TimeT: Ty := Data("time")
  const TimeDeltaT: Ty := Data("timedelta")

  /** `Dict == Dict[Any * Any]`: the default item of a dict type is `Any * Any`,
    * a base product; `Dict[Any, Any]` holds pytypes' product instead, which
    * compares equal. */
  lemma DictDefaultItem()
    ensures DictT.item == Times(PyAny, PyAny) && MappingT.item == Times(PyAny, PyAny)
    ensures DictOf(DictT, SingleArg(Times(PyAny, PyAny))) == Made(DictT)
    ensures DictOf(DictT, PairArg([PyAny, PyAny])).Made?
    ensures DictOf(DictT, PairArg([PyAny, PyAny])).value.item == Product([PyAny, PyAny], Py)
    ensures Eq(DictOf(DictT, PairArg([PyAny, PyAny])).value, DictT)
  {
    TimesParts(PyAny, PyAny);
    EqReflexive(Product([PyAny, PyAny], Base));
    EqReflexive(DictT.base);
  }

  /** A parameterised dict type cannot be subscripted again. */
  lemma DictOfTwice(k: Ty, v: Ty, arg: DictArg)
    requires !Eq(Product([k, v], Py), Times(PyAny, PyAny))
    ensures DictOf(DictT, PairArg([k, v])).Made?
    ensures DictOf(DictOf(DictT, PairArg([k, v])).value, arg) == Raised(AssertionErr)
  {
    TimesParts(PyAny, PyAny);
    EqReflexive(Product([PyAny, PyAny], Base));
  }

  // ---------------------------------------------------------------------------
  // Which class an operator builds, and what that changes

  /** `Literal[1, "a"] <= Int + String` is False: `+` builds a base sum, which
    * is no `PythonType`, so the literal's own `<=` gives way to the sum rule,
    * and neither alternative holds both values. */
  lemma LiteralNotBelowPlus(isSub: Hierarchy)
    requires isSub("int", "int") && isSub(StrClass, StrClass)
    requires !isSub("int", StrClass) && !isSub(StrClass, "int")
    ensures Le(OneOf([IntVal("int", 1), StrVal(StrClass, "a")]), Plus(IntT, StringT), isSub) == Ok(false)
  {
    var x := {IntT, StringT};
    assert |x| == 2 by {
      assert IntT != StringT;
    }
    assert Members(IntT) + Members(StringT) == x;
    assert SumOf(x) == Sum(x, Base);
    PlusUnfold(IntT, StringT);
    LiteralNotBelowBaseSum(Sum(x, Base), isSub);
  }

  lemma LiteralNotBelowBaseSum(s: Ty, isSub: Hierarchy)
    requires isSub("int", "int") && isSub(StrClass, StrClass)
    requires !isSub("int", StrClass) && !isSub(StrClass, "int")
    requires s.Sum? && s.layer == Base && s.alts == {IntT, StringT}
    ensures Le(OneOf([IntVal("int", 1), StrVal(StrClass, "a")]), s, isSub) == Ok(false)
  {
    var lit := OneOf([IntVal("int", 1), StrVal(StrClass, "a")]);
    assert Le(lit, s, isSub) == AnyOf(LeAlts(lit, s, isSub)) by {
      assert Chosen(lit, s) == SumRight;
    }
    assert forall x | x in LeAlts(lit, s, isSub) :: x == Ok(false) by {
      LiteralNotBelowEither(isSub);
      LeAltsMembers(lit, s, isSub);
    }
  }

  lemma LiteralNotBelowEither(isSub: Hierarchy)
    requires isSub("int", "int") && isSub(StrClass, StrClass)
    requires !isSub("int", StrClass) && !isSub(StrClass, "int")
    ensures Le(OneOf([IntVal("int", 1), StrVal(StrClass, "a")]), IntT, isSub) == Ok(false)
    ensures Le(OneOf([IntVal("int", 1), StrVal(StrClass, "a")]), StringT, isSub) == Ok(false)
  {
    var values := [IntVal("int", 1), StrVal(StrClass, "a")];
    assert values[1..] == [StrVal(StrClass, "a")];
    assert Check(IntT, values[0], isSub) == Pass;
    assert Check(IntT, values[1], isSub).Reject?;
    assert ValidateAll(values[1..], IntT, isSub) == Ok(false);
    assert ValidateAll(values, IntT, isSub) == Ok(false);
    assert Check(StringT, values[0], isSub).Reject?;
  }

  /** The sum that `to_canon` builds for `Union[int, str]` is a `PythonType`:
    * `Literal[1, "a"]` is below it, each value validating against it. */
  lemma LiteralBelowUnion(isSub: Hierarchy)
    requires isSub("int", "int") && isSub(StrClass, StrClass)
    ensures Le(OneOf([IntVal("int", 1), StrVal(StrClass, "a")]), SumInit([IntT, StringT]), isSub) == Ok(true)
  {
    LiteralBelowSum(SumInit([IntT, StringT]), isSub);
  }

  lemma LiteralBelowSum(s: Ty, isSub: Hierarchy)
    requires isSub("int", "int") && isSub(StrClass, StrClass)
    requires s.Sum? && s.layer == Py && IntT in s.alts && StringT in s.alts
    ensures Le(OneOf([IntVal("int", 1), StrVal(StrClass, "a")]), s, isSub) == Ok(true)
  {
    var values := [IntVal("int", 1), StrVal(StrClass, "a")];
    assert Conforms(s, values[0], isSub) by {
      SumConformsIff(s.alts, values[0], isSub);
      assert Conforms(IntT, values[0], isSub);
    }
    assert Conforms(s, values[1], isSub) by {
      SumConformsIff(s.alts, values[1], isSub);
      assert Conforms(StringT, values[1], isSub);
    }
    assert Le(OneOf(values), s, isSub) == ValidateAll(values, s, isSub) by {
      assert IsPythonType(s);
    }
  }

  /** `str <= Iterable` is False: the generic constants carry pytypes' Any,
    * and the rule for a generic on the right asks for `base_types.Any`. */
  lemma StringNotBelowIter(isSub: Hierarchy)
    ensures Le(StringT, IterT, isSub) == Ok(false)
    ensures isSub(StrClass, "Iterable") ==>
      Le(StringT, Generic(IterT.base, BaseAny, Covariant, SequenceContainer), isSub) == Ok(true)
  {
    GenericRightLe(StringT, IterT, isSub);
    GenericRightLe(StringT, Generic(IterT.base, BaseAny, Covariant, SequenceContainer), isSub);
  }

  /** `Tuple >= Int * Int` is False, while `Tuple >= Tuple[int, int]` holds: only
    * pytypes' products are above Tuple's `>=`. */
  lemma TupleAboveProducts(isSub: Hierarchy)
    ensures Ge(TupleT, Times(IntT, IntT), isSub) == Ok(false)
    ensures Ge(TupleT, Product([IntT, IntT], Py), isSub) == Ok(true)
  {
    TimesParts(IntT, IntT);
    TupleRelations(Times(IntT, IntT), isSub);
    TupleRelations(Product([IntT, IntT], Py), isSub);
  }

  // ---------------------------------------------------------------------------
  // Int(min, max) and String(min_length, max_length)

  /** `_Number.__call__`: a constraint with one predicate per bound given. */
  function NumberCall(self: Ty, min: Option<int>, max: Option<int>): (r: Ty)
    ensures r.Constraint? && r.ctype == self
  {
    var lo := if min.Some? then [AtLeast(min.value)] else [];
    var hi := if max.Some? then [AtMost(max.value)] else [];
    Constraint(self, lo + hi)
  }

  /** `_String.__call__`: String itself when no bound is given. */
  function StringCall(minLength: Option<int>, maxLength: Option<int>): (r: Ty)
    ensures minLength.None? && maxLength.None? ==> r == StringT
    ensures minLength.Some? || maxLength.Some? ==> r.Constraint? && r.ctype == StringT
  {
    var lo := if minLength.Some? then [MinLength(minLength.value)] else [];
    var hi := if maxLength.Some? then [MaxLength(maxLength.value)] else [];
    if lo + hi == [] then StringT else Constraint(StringT, lo + hi)
  }

  /** `Int(min, max)` accepts an int i iff `min <= i <= max`, each bound omitted when None. */
  lemma NumberCallConforms(min: Option<int>, max: Option<int>, v: Value, isSub: Hierarchy)
    requires v.IntVal?
    ensures Conforms(NumberCall(IntT, min, max), v, isSub) <==>
      IsInstance(v, "int", isSub) && (min.None? || min.value <= v.n) && (max.None? || v.n <= max.value)
  {
    var c := NumberCall(IntT, min, max);
    ConstraintConformsIff(IntT, c.preds, v, isSub);
    match (min, max)
    case (Some(a), Some(b)) =>
      assert c.preds == [AtLeast(a), AtMost(b)];
      assert (forall i | 0 <= i < 2 :: Holds(c.preds[i], v) == Some(true)) <==>
        Holds(c.preds[0], v) == Some(true) && Holds(c.preds[1], v) == Some(true);
    case (Some(a), None) => assert c.preds == [AtLeast(a)];
    case (None, Some(b)) => assert c.preds == [AtMost(b)];
    case (None, None) => assert c.preds == [];
  }

  /** `String(min_length, max_length)` accepts a string s iff its length is within the bounds. */
  lemma StringCallConforms(minLength: Option<int>, maxLength: Option<int>, v: Value, isSub: Hierarchy)
    requires v.StrVal?
    ensures Conforms(StringCall(minLength, maxLength), v, isSub) <==>
      IsInstance(v, StrClass, isSub) &&
      (minLength.None? || minLength.value <= |v.s|) && (maxLength.None? || |v.s| <= maxLength.value)
  {
    var c := StringCall(minLength, maxLength);
    if c.Constraint? {
      ConstraintConformsIff(StringT, c.preds, v, isSub);
      match (minLength, maxLength)
      case (Some(a), Some(b)) =>
        assert c.preds == [MinLength(a), MaxLength(b)];
        assert (forall i | 0 <= i < 2 :: Holds(c.preds[i], v) == Some(true)) <==>
          Holds(c.preds[0], v) == Some(true) && Holds(c.preds[1], v) == Some(true);
      case (Some(a), None) => assert c.preds == [MinLength(a)];
      case (None, Some(b)) => assert c.preds == [MaxLength(b)];
    }
  }

  /** `Int(min=10, max=12)` accepts 11 and rejects 9 and 13. */
  lemma IntRangeExample(isSub: Hierarchy)
    requires isSub("int", "int")
    ensures Conforms(NumberCall(IntT, Some(10), Some(12)), IntVal("int", 11), isSub)
    ensures !Conforms(NumberCall(IntT, Some(10), Some(12)), IntVal("int", 9), isSub)
    ensures !Conforms(NumberCall(IntT, Some(10), Some(12)), IntVal("int", 13), isSub)
  {
    NumberCallConforms(Some(10), Some(12), IntVal("int", 11), isSub);
    NumberCallConforms(Some(10), Some(12), IntVal("int", 9), isSub);
    NumberCallConforms(Some(10), Some(12), IntVal("int", 13), isSub);
  }
}
