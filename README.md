# runtype core in Dafny

A Dafny model of the two components at the heart of runtype, a Python library
for run-time type validation and multiple dispatch.

- **The type poset.** These are the runtype types:
  - Any, data types, sums, products and generics;
  - phantom types, phantom generics and constraints;
  - the Python kinds Tuple and OneOf (literals).

  On top of the types, the model covers:
  - the dispatched subtype relation `<=`, with its rule table and priorities, and `>=` and `==`;
  - conformance of runtime values (`validate_instance`, `test_instance`);
  - the smart constructors (`+`, `*`, `SumType.create`, the literal-merging `SumType.__init__`, generic subscription, `Dict[k, v]`, `Int(min, max)`, `String(min_length, max_length)`);
  - `TypeCaster.to_canon`, the memoized translation of Python annotations into runtype types.
- **Multiple dispatch.**
  - `get_func_signatures`: one signature per number of arguments a function accepts.
  - The `TypeTree` trie with its lookup (`find_function`), its cache (`find_function_cached`) and registration (`define_function`).
  - The specificity resolver `choose_most_specific_function`.
  - The `MultiDispatch` decorator with its `priority` option.

Modules and what they model:

| module | file | models |
|---|---|---|
| `Values` | `values.dfy` | host values and `isinstance` over an abstract class hierarchy |
| `Types` | `types.dfy` | the type kinds |
| `Relation` | `relation.dfy` | `le`, `ge` and `eq`, and the operator overrides |
| `Conformance` | `conformance.dfy` | `validate_instance` and `test_instance` |
| `Constructors` | `constructors.dfy` | the smart constructors and the constants |
| `Canon` | `canon.dfy` | `to_canon` |
| `TypeSystems` | `typesystem.dfy` | the interface a dispatcher uses |
| `Signatures` | `signatures.dfy` | `get_func_signatures` |
| `Resolver` | `resolver.dfy` | `choose_most_specific_function` |
| `DispatchTrie` | `trie.dfy` | the trie as values, with its lookup and registration specifications |
| `Dispatch` | `dispatch.dfy` | the classes `TypeTree` and `MultiDispatch` |

The `*_lemmas.dfy` files and `dispatch_examples.dfy` hold the properties and the scenarios of the library's tests.

How each source construct is represented:

- **Trie nodes.** A trie is held as a sequence of nodes. Node 0 is the root. An edge is a pair of a type and a child index, kept in insertion order as the `follow_type` dictionary keeps them.
- **Ghost paths.** A ghost sequence of paths records the edge types from the root to each node.
- **Proved against specifications.** Every imperative operation (the classes, the loops of the resolver, `get_func_signatures`, `SumType.create`, `ProductType.create`, the `validate_instance` loops, `to_canon`) is a method. Each is proved equal to a specification function: `Dispatch`, `Install`, `Resolve`, `SignaturesOf`, `Check`, `CanonOf`. The properties are then proved about those functions.
- **Abstract parameters.** The class hierarchy (`issubclass` on kernels) is a parameter `isSub`. The type system a dispatcher uses (`isinstance`, `issubclass`, `get_type`, `canonize_type`, `default_type`, `any_type`) is a record of functions, `TypeSystems.TypeSystem`. `runtype/typesystem.py:3-14` gives `isinstance` a default body, `issubclass(get_type(obj), t)`, which `PythonBasic` replaces with the builtin; the record keeps `isInstance` a separate field, and the lemmas that need the default take it as a hypothesis (`Dispatch.CacheKeySound`, `Dispatch.TypeTree.FindFunctionCached`).

## Model

| member | source | states |
|---|---|---|
| Values.ClassOf | runtype/pytypes.py:179-181 | `type(v)`: the class every value but None carries (a tuple's may be `tuple` or a subclass such as a namedtuple), and None's is `NoneType`; the Tuple check tests it with `isinstance` |
| Values.Elements | runtype/pytypes.py:228-234 | what `for x in obj` iterates over: the items of a list or tuple, one element per dict entry and per character; ints, objects and None are not iterable |
| Values.Len | runtype/pytypes.py:327-338 | `len(obj)` is non-negative, and undefined exactly for ints, plain objects and None |
| Values.PyEqReflexive | runtype/pytypes.py:190-195 | Python `==` on values is reflexive |
| Values.PyEqSymmetric | runtype/pytypes.py:190-195 | Python `==` on values is symmetric |
| Values.PyEqTransitive | runtype/pytypes.py:190-195 | Python `==` on values is transitive |
| Values.PlainEq | runtype/pytypes.py:190-195 | on values whose ints, strings and tuples are of class `int`, `str` and `tuple` at every depth, Python `==` is structural equality |
| Values.IsInConcat | runtype/pytypes.py:96-98 | `v in xs + ys` iff `v in xs` or `v in ys` |
| Values.BoolEqualsInt | runtype/pytypes.py:190-200 | `True == 1` though the two are different values of different classes |
| Relation.Chosen | runtype/base_types.py:260-381 | the `le` rule dispatched for a pair of operand kinds; every rule it names applies to the operands |
| Relation.ChosenResolves | runtype/base_types.py:300-381 | the rule table is what multiple dispatch picks: a rule specific in both operands when one applies, else the applicable rule of strictly highest priority (Any 100, sum on the left 51, sum on the right 50, phantom item and constraint 1, fallback -1); a tie at the top is a DispatchError |
| Relation.And | runtype/base_types.py:337-345 | `x and y` on comparison results is True exactly when both are, evaluated left to right |
| Relation.Or | runtype/base_types.py:367-370 | `x or y` is True when x is, or x is False and y True |
| Relation.AllOf | runtype/base_types.py:314-316 | `all(...)` over a frozenset: True iff all are True, False iff some is False, whatever the iteration order |
| Relation.AnyOf | runtype/base_types.py:318-320 | `any(...)` over a frozenset: True iff some is True, False iff all are False |
| Relation.AllInOrder | runtype/base_types.py:326-331 | `all(...)` over the zipped comparisons of two products: True iff every one is True |
| Relation.ValidateAll | runtype/pytypes.py:190-200 | a literal is below another Python type iff every one of its values conforms to it |
| Relation.PointwiseLe | runtype/base_types.py:326-331 | one comparison per element position of the two products |
| RelationLemmas.AltsLeMembers | runtype/base_types.py:314-316 | the results of the left-sum rule are exactly `le(t, b)` for the alternatives t |
| RelationLemmas.LeAltsMembers | runtype/base_types.py:318-320 | the results of the right-sum rule are exactly `le(a, t)` for the alternatives t |
| RelationLemmas.PointwiseLeMembers | runtype/base_types.py:326-331 | position i of the pointwise comparison is `le(x_i, y_i)` |
| RelationLemmas.LeAny | runtype/base_types.py:300-303 | every type is `<=` the pytypes Any; every type but Tuple is `<=` the base_types Any, since `TupleType.__le__` accepts only the pytypes Any |
| RelationLemmas.AnyLeAgrees | runtype/base_types.py:300-320 | `Any <= t` never raises, for the Any of either module |
| RelationLemmas.AnyNotLeData | runtype/base_types.py:264-266 | `Any <= Int` is False, for the Any of either module |
| RelationLemmas.FallbackIsEquality | runtype/base_types.py:264-266 | when only the fallback rule applies, `a <= b` is `a == b` |
| RelationLemmas.GeIsReversedLe | runtype/base_types.py:268-270 | `a >= b` is `le(b, a)`, and is `b <= a` when neither operand overrides the operators; when the class of b derives from that of a, Python asks `b.__le__(a)` first and that is the answer |
| RelationLemmas.SumLeftLe | runtype/base_types.py:314-316 | a sum is below b iff every alternative is, and not below iff some alternative is not, even when b is a sum |
| RelationLemmas.SumRightLe | runtype/base_types.py:318-320 | a type that is not a sum is below a sum iff it is below some alternative |
| RelationLemmas.SumWithTupleNotReflexive | runtype/pytypes.py:161-166 | as written, `Sum{Tuple, X} <= Sum{Tuple, X}` is False, because `Tuple <= Sum` is False |
| RelationLemmas.ProductLe | runtype/base_types.py:326-331 | products compare pointwise and only at equal length |
| RelationLemmas.GenericPairLe | runtype/base_types.py:337-345 | both of the two generics' bases compare, and their items compare by the left variance: covariant `<=`, contravariant `>=`, invariant `==` |
| RelationLemmas.GenericLeftLe | runtype/base_types.py:347-349 | a generic is below a non-generic type exactly when its base is |
| RelationLemmas.GenericRightLe | runtype/base_types.py:351-353 | a type is below a generic iff the generic's item is the base_types Any (`other.item is Any`) and the type is below its base; a generic over the pytypes Any, such as `Iter`, admits no non-generic type |
| RelationLemmas.PhantomItemRightLe | runtype/base_types.py:359-361 | `T <= P[x]` is `T <= x` |
| RelationLemmas.PhantomItemLeftLe | runtype/base_types.py:363-365 | `P[x] <= T` is `x <= T` for a T that is not a phantom |
| RelationLemmas.PhantomBaseLe | runtype/base_types.py:367-370 | `P[x] <= Q` iff `P <= Q` or `x <= Q`, for a phantom Q |
| RelationLemmas.PhantomGenericVsGenericAmbiguous | runtype/base_types.py:347-365 | `P[x] <= G` for a generic G is a DispatchError, because two rules of priority 0 tie |
| RelationLemmas.ConstraintVsPhantomGenericAmbiguous | runtype/base_types.py:359-381 | `C <= P[x]` for a constraint C is a DispatchError, because two rules of priority 1 tie |
| RelationLemmas.PhantomItemExamples | tests/test_types.py:50-54 | `N <= P[N]`, `P[N] <= N`, `P[N] <= P[N]` and `P[N] <= P` hold; `P <= P[N]` does not |
| RelationLemmas.NestedPhantomExamples | tests/test_types.py:56-58 | `P[Q] <= Q` holds and `P <= Q` does not |
| RelationLemmas.DeepPhantomExamples | tests/test_types.py:60-62 | `P[Q[N]] <= Q` and `P[Q[N]] <= N` hold |
| RelationLemmas.ConstraintPairLe | runtype/base_types.py:374-377 | a constraint is below a constraint only when they are the same |
| RelationLemmas.ConstraintLeftLe | runtype/base_types.py:379-381 | otherwise a constraint is below T exactly when its constrained type is |
| RelationLemmas.DataLe | runtype/pytypes.py:128-132 | Python data types compare by subclassing their kernels, except a plain one below a subclass constant (`bool <= Int`), where the reflected `__ge__` answers with `==`, False |
| RelationLemmas.ReflectedDataExamples | runtype/pytypes.py:284-390 | `Object >= Int` is True through `Int.__le__`, `PythonDataType(bool) <= Int` is False through `Int.__ge__`, and `Int <= Object` is True; `Object >= Bytes` is False, since plain data types meet `>=` through `Type.__ge__` |
| RelationLemmas.TupleRelations | runtype/pytypes.py:161-177 | Tuple is below only the pytypes Any and Tuple; it is above Tuple and every pytypes product, and not above a base_types product (`*`), which fails `isinstance(other, ProductType)` |
| RelationLemmas.OneOfRelations | runtype/pytypes.py:190-207 | literals compare as subsets of values under Python `==` (each value of one is `in` the other); against another Python type a literal is below iff every value conforms, and above never |
| RelationLemmas.OneOfEqualValues | runtype/pytypes.py:190-195 | `Literal[True] <= Literal[1]` and `Literal[1] <= Literal[True]`, since `set([True]) <= set([1])` |
| RelationLemmas.EqReflexive | runtype/base_types.py:272-294 | `t == t` for every type that holds no phantom generic |
| RelationLemmas.PhantomGenericNotSelfEqual | runtype/base_types.py:292-294 | as written, `P[x] == P[x]` is False: the item is compared with the other's base |
| RelationLemmas.GenericAnyEqualsBase | runtype/base_types.py:288-290 | a generic over Any, of either module, equals its base, in both directions (`Array[Any] == Array`) |
| RelationLemmas.LeSound | runtype/base_types.py:300-331 | for pytypes sums and products, Python kinds and values on which `==` is structural, over a transitive hierarchy: `a <= b` and v conforming to a imply v conforms to b |
| RelationLemmas.LeSoundOneOf | runtype/pytypes.py:190-211 | a value conforming to a literal of plain values conforms to every Python type the literal is below |
| RelationLemmas.LeSoundProduct | runtype/pytypes.py:80-89 | a tuple conforming to a pytypes product conforms to every product above it |
| RelationLemmas.LiteralLeNotSound | runtype/pytypes.py:190-200 | as written, `Literal[True] <= bool` though the int 1 conforms to the literal and not to bool: `==` mixes bools with ints |
| Conformance.TestInstance | runtype/base_types.py:220-230 | `test_instance` is True iff validation passes, False iff it raises a mismatch, and lets other exceptions through |
| Conformance.Holds | runtype/pytypes.py:302-338 | the bound predicates of `Int(...)` and `String(...)` on ints and on lengths; applying one to a value without the compared quantity raises |
| Conformance.FirstFailure | runtype/pytypes.py:83-89 | checks run in order pass iff each passes, and otherwise end with the first that fails |
| Conformance.PredicateOutcome | runtype/base_types.py:240-246 | a constraint's predicates pass iff each holds; a failing one raises the mismatch naming the constraint |
| Conformance.SumFault | runtype/pytypes.py:103-105 | the exception a sum propagates is one an alternative raised |
| Conformance.SumOutcome | runtype/pytypes.py:103-105 | a sum passes iff some alternative passes; it raises only when none passes and some raises; otherwise it reports a mismatch against the sum |
| Conformance.ValidateInstance | runtype/pytypes.py:69-211 | `validate_instance` of every kind agrees with the specification `Check` |
| Conformance.ValidateProduct | runtype/pytypes.py:83-89 | the product loop (an instance of `tuple` or a subclass, iterable, of the right length unless empty, each element in turn) agrees with `Check` |
| Conformance.ValidateSum | runtype/pytypes.py:103-105 | the loop over the alternatives agrees with `Check` |
| Conformance.ValidateSequence | runtype/pytypes.py:228-234 | the container check then the element loop agree with `Check` |
| Conformance.ItemOutcomes | runtype/pytypes.py:233-234 | one outcome per element, each the item type's check of that element |
| Conformance.ValidateElements | runtype/pytypes.py:230-234 | the element loop agrees with the specification `SequenceItems`: nothing to check for an Any item, a non-iterable raises, otherwise the first element that fails decides |
| Conformance.ContainerCheck | runtype/pytypes.py:228-267 | a container's outcome is its base's unless that passes, and then its items' |
| Conformance.ValidateDict | runtype/pytypes.py:258-267 | the container check then the key and value loop agree with `Check` |
| Conformance.EntryOutcomes | runtype/pytypes.py:265-267 | two outcomes per entry, in order: the key type's check of the key, then the value type's check of the value |
| Conformance.ValidateEntries | runtype/pytypes.py:260-267 | the entry loop agrees with the specification `DictItems`: key then value, entry by entry, the first failure deciding |
| Conformance.ValidateConstraint | runtype/base_types.py:240-246 | the base check then the predicate loop agree with `Check` |
| Conformance.ConstraintCheck | runtype/base_types.py:240-246 | a constraint's outcome is its base type's unless that passes, and then its predicates' |
| Conformance.ValidatePredicates | runtype/base_types.py:244-246 | the predicate loop agrees with `PredicateOutcome`: the first predicate that fails raises the mismatch |
| ConformanceLemmas.SumConformsIff | runtype/pytypes.py:103-105 | a value conforms to a pytypes sum iff it conforms to some alternative |
| ConformanceLemmas.SumRaisesIff | runtype/pytypes.py:103-105 | a sum raises iff no alternative accepts and some alternative raises |
| ConformanceLemmas.ProductConformsIff | runtype/pytypes.py:83-89 | an instance of `tuple` or of a subclass conforms to a non-empty product iff it has its length and conforms element by element; the empty product accepts every such instance |
| ConformanceLemmas.ProductRejects | runtype/pytypes.py:83-89 | a value that is no instance of `tuple` is rejected as not a tuple, one that cannot be iterated raises, and one of the wrong length gets a length mismatch |
| ConformanceLemmas.NamedTupleConforms | runtype/pytypes.py:179-181 | a namedtuple `Point(1, 2)` conforms to `Tuple`, to `Data(tuple)` and to `Tuple[int, int]`; a list conforms to neither |
| ConformanceLemmas.TupleIsTupleClass | runtype/pytypes.py:179-181 | `Tuple` accepts exactly the values whose class is a subclass of `tuple`, as the data type `tuple` does |
| ConformanceLemmas.SequenceConformsIff | runtype/pytypes.py:228-234 | a sequence type accepts an iterable instance of its base whose every element conforms to the item; with the pytypes Any as item only the base is checked |
| ConformanceLemmas.DictConformsIff | runtype/pytypes.py:258-267 | `Dict[K, V]`, whose item is a product of either module, accepts an instance of its base whose every key conforms to K and every value to V |
| ConformanceLemmas.DictMalformedItem | runtype/pytypes.py:258-262 | a dict type whose item is not a pair raises once the base accepts |
| ConformanceLemmas.OneOfConformsIff | runtype/pytypes.py:209-211 | a value conforms to a literal iff it is `==` one of its values, so `True` conforms to `Literal[1]` and `1` to `Literal[True]` |
| ConformanceLemmas.ConstraintConformsIff | runtype/base_types.py:240-246 | a value satisfies a constraint iff it conforms to the constrained type and every predicate holds |
| ConformanceLemmas.NonValidatorsRaise | runtype/base_types.py:209-230 | kinds without `validate_instance` raise instead of answering: atoms, phantoms, abstract generics and the base_types Any, sums and products |
| Constructors.Members | runtype/base_types.py:86-100 | a sum contributes its alternatives to `SumType.create`, any other type itself |
| Constructors.Collected | runtype/base_types.py:86-100 | the collected set holds exactly the members of the arguments |
| Constructors.FirstAny | runtype/base_types.py:86-94 | the first Any among the arguments of `create`, when there is one |
| Constructors.FirstAnyAt | runtype/base_types.py:86-94 | an Any at position i with none before it is the one `create` returns |
| Constructors.SumCreate | runtype/base_types.py:86-100 | the `create` loop agrees with its specification `SumCreated`: the first Any among the arguments when there is one, else the single member or the base_types sum of the members |
| Constructors.PlusUnfold | runtype/base_types.py:43-59 | `a + b` is a when a is Any, else b when b is Any, else the base_types sum of both sides' members |
| Constructors.PlusAny | runtype/base_types.py:58-59 | `Any + t` is that Any, and `t + Any` is that Any when t is not an Any |
| Constructors.PlusCommutes | runtype/base_types.py:43-59 | `a + b == b + a` except exactly when a and b are the two different Anys |
| Constructors.PlusIdempotent | runtype/base_types.py:43-44 | `t + t == t` for a t that is not a sum |
| Constructors.AnyPlusNested | tests/test_types.py:76 | `Any + ((Any + Any) + Any)` is Any |
| Constructors.PlusConforms | runtype/base_types.py:43-44 | `a + b` is a validator only when it is the pytypes Any or collapses to a single member: then a value conforms iff it conforms to that Any or to a member; a base_types sum of two or more members is no validator and raises |
| Constructors.SumOfConforms | runtype/base_types.py:98-100 | `SumType.create` of one alternative validates as that alternative; of two or more it builds a base_types sum, which raises rather than validates |
| Constructors.MembersConform | runtype/base_types.py:86-100 | a type that is not a base_types sum conforms iff one of its members does; a base_types sum raises |
| Constructors.SumCreatedConforms | runtype/base_types.py:86-100 | `SumType.create(types)` is a validator when it meets an Any (the pytypes one) or collapses to one member, and then a value conforms iff it conforms to one of the types; otherwise it raises |
| Constructors.AnyConforms | runtype/pytypes.py:69-77 | a value conforms to an Any iff that Any is the pytypes one; the base_types Any raises |
| Constructors.CollectedConforms | runtype/base_types.py:86-100 | over arguments holding no base_types sum, a value conforms to a collected member iff it conforms to one of the arguments |
| Constructors.SumOfFlat | runtype/base_types.py:86-100 | a sum of flat non-Any types is flat and has those alternatives as its members |
| Constructors.PlusFlat | runtype/base_types.py:43-44 | `+` keeps types flat and unions their members |
| Constructors.PlusAssociative | runtype/base_types.py:43-44 | `(a + b) + c == a + (b + c)` on flat types |
| Constructors.Parts | runtype/base_types.py:112-125 | a product contributes its elements to `ProductType.create`, any other type itself |
| Constructors.FlattenedAppend | runtype/base_types.py:116-125 | flattening distributes over concatenation |
| Constructors.ProductCreate | runtype/base_types.py:116-125 | the `create` loop builds the base_types product of the flattened arguments |
| Constructors.TimesParts | runtype/base_types.py:46-47 | `a * b` is a base_types product of the parts of a, then those of b |
| Constructors.TimesAssociative | runtype/base_types.py:46-47 | `(a * b) * c == a * (b * c)` |
| Constructors.ProductCreatedParts | runtype/base_types.py:116-125 | every argument that is not a product appears in the created product |
| Constructors.OneOfs | runtype/pytypes.py:93-101 | the literal arguments of `SumType(...)` |
| Constructors.Others | runtype/pytypes.py:93-101 | the non-literal arguments of `SumType(...)` |
| Constructors.MergedValues | runtype/pytypes.py:96-98 | the merged values are exactly the values of the literals |
| Constructors.MergedValuesIsIn | runtype/pytypes.py:96-98 | a value is `in` the merged values iff it is `in` the values of some literal |
| Constructors.SetOfTys | runtype/base_types.py:83-84 | `frozenset(types)` holds exactly the types |
| Constructors.SumInit | runtype/pytypes.py:93-101 | `SumType(ts)` is a sum whose non-literal alternatives are exactly the non-literal arguments |
| Constructors.SumInitOneLiteral | runtype/pytypes.py:93-101 | after `SumType.__init__` a sum holds at most one literal |
| Constructors.SumInitConforms | runtype/pytypes.py:93-105 | merging literals does not change which values the sum accepts: a value conforms iff it conforms to some argument |
| Constructors.SumInitAlternatives | runtype/pytypes.py:93-101 | some alternative of `SumType(ts)` accepts a value iff some type of ts does |
| Constructors.SumInitAccepts | runtype/pytypes.py:96-100 | for any acceptance test that accepts exactly the listed values of a literal, merging the literals keeps what the alternatives accept |
| Constructors.GenericOf | runtype/base_types.py:156-175 | `g[item]` succeeds iff item is below g's item, giving g's base and variance with the new item; a False comparison raises TypeError |
| Constructors.GenericOfAnyItem | runtype/base_types.py:156-175 | a generic over Any accepts every item, except Tuple under the base_types Any, since `Tuple <= Any` is False there |
| Constructors.GenericOfAnyIsSame | tests/test_types.py:26 | `Array[Any] == Array`: subscripting a generic over Any by that Any gives it back |
| Constructors.GenericOfIsBelow | tests/test_types.py:27 | a covariant refinement is below what it refines (`Array[Int] <= Array[Any]`) |
| Constructors.DictOf | runtype/pytypes.py:269-271 | `Dict[...]` succeeds iff the dict type is unparameterised and a tuple argument is a pair; the item is the product of the pair or the single argument |
| Constructors.DictDefaultItem | runtype/pytypes.py:251-271 | the default item of Dict and Mapping is `Any * Any`; `Dict[Any * Any]` is Dict; `Dict[Any, Any]` has a pytypes product as item and equals Dict |
| Constructors.DictOfTwice | runtype/pytypes.py:269-271 | a parameterised dict type cannot be subscripted again |
| Constructors.LiteralNotBelowPlus | runtype/pytypes.py:190-200 | `Literal[1, "a"] <= Int + String` is False: `+` builds a base_types sum, which is not a Python type, so the literal's own `<=` gives way to the right-sum rule, and neither alternative holds both values |
| Constructors.LiteralBelowUnion | runtype/pytypes.py:190-200 | `Literal[1, "a"] <= Union[int, str]` is True: the union is a pytypes sum and each value conforms to an alternative |
| Constructors.StringNotBelowIter | runtype/base_types.py:351-353 | `String <= Iter` is False because Iter's item is the pytypes Any, not the base_types one; with the base_types Any it would follow `str <= Iterable` |
| Constructors.TupleAboveProducts | runtype/pytypes.py:173-177 | `Tuple >= Int * Int` is False, since `*` builds a base_types product, and `Tuple >= Tuple[int, int]` is True |
| Constructors.NumberCall | runtype/pytypes.py:302-310 | `Int(min, max)` is a constraint on the number type itself |
| Constructors.StringCall | runtype/pytypes.py:327-338 | `String()` is String itself; with a bound it is a constraint on String |
| Constructors.NumberCallConforms | runtype/pytypes.py:302-310 | `Int(min, max)` accepts an int i iff `min <= i <= max`, each bound omitted when None |
| Constructors.StringCallConforms | runtype/pytypes.py:327-338 | `String(min_length, max_length)` accepts a string iff its length is within the bounds |
| Constructors.IntRangeExample | tests/test_types.py:123-127 | `Int(min=10, max=12)` accepts 11 and rejects 9 and 13 |
| Canon.CastMapping | runtype/pytypes.py:399-417 | the `_type_cast_mapping` lookup: `typing.Any` maps to the pytypes Any, a class is mapped iff it is in the table, nothing else is |
| Canon.CanonSeq | runtype/pytypes.py:510-512 | a list comprehension of `to_canon` calls succeeds iff each call does, giving every result, and otherwise raises the first exception |
| Canon.CanonAll | runtype/pytypes.py:456-457 | the canonical forms of the parts succeed iff each part does, giving each part's form, and otherwise raise the first part's exception |
| Canon.TypeCaster.constructor | runtype/pytypes.py:440-443 | a new caster has an empty memo |
| Canon.TypeCaster.ToCanon | runtype/pytypes.py:535-544 | `to_canon(a)` is the specification `CanonOf(a)`; a result is memoized and an exception is not; a memoized key answers from the memo |
| Canon.TypeCaster.Canonize | runtype/pytypes.py:445-533 | `_to_canon(a)` is `CanonOf(a)` and keeps the memo |
| Canon.TypeCaster.CanonizeOne | runtype/pytypes.py:490-498 | `x ,= t.__args__` raises ValueError unless there is one argument, then subscripts the generic by its canonical form |
| Canon.TypeCaster.CanonizeDict | runtype/pytypes.py:499-501 | `k, v = t.__args__` raises ValueError unless there are two arguments, then subscripts the dict type |
| Canon.TypeCaster.CanonizeEach | runtype/pytypes.py:456-457 | `[to_canon(x) for x in args]` stops at the first exception |
| CanonLemmas.CanonClassExamples | runtype/pytypes.py:399-417 | `object` and `typing.Any` canonicalize to the pytypes Any; `list`, `tuple` and `dict` give the same types as the bare typing forms |
| CanonLemmas.CanonAnyItemExamples | runtype/pytypes.py:490-501 | `List[Any]` is List, and `Dict[Any, Any]` is a dict generic over a pytypes pair of Anys that equals Dict |
| CanonLemmas.CanonOfKnownForms | runtype/pytypes.py:448-533 | a runtype type is its own canonical form; a type variable is Any; a forward reference raises without a frame; an unmapped class becomes a Python data type |
| CanonLemmas.UnionTupleConforms | runtype/pytypes.py:456-457 | a tuple of annotations is their union; it raises when one of them does, and otherwise accepts what some part accepts |
| CanonLemmas.TupleEllipsisCanon | runtype/pytypes.py:502-506 | `Tuple[t, ...]` is the covariant tuple sequence over t; any other use of the ellipsis raises ValueError |
| CanonLemmas.TupleEllipsisConforms | tests/test_types.py:213-214 | `Tuple[t, ...]` accepts the tuples whose every item conforms to t |
| CanonLemmas.TupleProductCanon | runtype/pytypes.py:502-508 | `Tuple[t1, ..., tn]` without an ellipsis is the unflattened product of the parts, and raises when a part does |
| CanonLemmas.SubscriptOneAgrees | runtype/pytypes.py:490-498 | `List[x]`, `Set[x]`, `FrozenSet[x]` and `Sequence[x]` subscript their bare generic by x's canonical form |
| CanonLemmas.SubscriptArity | runtype/pytypes.py:490-527 | a one-argument form with another number of arguments, or a two-argument form with other than two, raises ValueError |
| CanonLemmas.ListConforms | runtype/pytypes.py:228-234 | `List[x]` accepts the lists whose every element conforms to x |
| CanonLemmas.DictCanon | runtype/pytypes.py:499-501 | `Dict[k, v]` is the dict generic over the pair of canonical forms; the key is canonicalized first |
| CanonLemmas.DictAnnotConforms | runtype/pytypes.py:258-267 | `Dict[k, v]` accepts the dicts whose keys conform to k and values to v |
| CanonLemmas.UnionOfParts | runtype/pytypes.py:510-512 | a `Union` or a tuple of annotations whose canonical forms are ts is `SumType(ts)` |
| CanonLemmas.OptionalCanon | runtype/pytypes.py:510-512 | `Optional[x]` is the sum of x and the None literal |
| CanonLemmas.OptionalConforms | runtype/pytypes.py:93-105 | an optional type accepts None and what its type accepts |
| CanonLemmas.NoneConformsIff | runtype/pytypes.py:376-378 | `NoneType`, the literal of `[None]`, accepts None and nothing else |
| CanonLemmas.ProductNotBelowTuple | runtype/pytypes.py:161-177 | as written, a product of either module is not `<=` Tuple, Tuple is `>=` it only when it is a pytypes product, and `Tuple[t, ...]` is not `<=` Tuple |
| Signatures.GetFuncSignatures | runtype/utils.py:3-25 | the loop agrees with `SignaturesOf`: a prefix at each defaulted parameter, then the full signature |
| Signatures.DefaultPrefixesShape | runtype/utils.py:18-20 | the prefixes stop exactly at the defaulted parameters, in increasing length |
| Signatures.SignatureFamily | runtype/utils.py:3-25 | one signature per default plus the full one, last; each is a strict prefix of the next; a prefix of the full signature is registered iff it stops before a defaulted parameter or is the full signature |
| Signatures.TwoDefaultsExample | tests/test_basic.py:185-191 | `f(x: int = 2, y: int = 2)` is registered for zero, one and two arguments |
| Resolver.Width | runtype/dispatch.py:204 | `zip(*sigs)` is no longer than any signature |
| Resolver.WidthAttained | runtype/dispatch.py:204 | the width is the length of some signature |
| Resolver.FirstMinimal | runtype/dispatch.py:207-208 | the most specific index is the first with nothing strictly below it in the column, and index 0 when there is none |
| Resolver.WinningSet | runtype/dispatch.py:207-218 | a column's set holds the most specific index and exactly the indices whose type equals its type, is a subtype of it that is not the top type, or is not a supertype of it |
| Resolver.DifferingColumns | runtype/dispatch.py:204-206 | the columns kept by the loop that skips columns whose types all agree lie before j |
| Resolver.ColumnSet | runtype/dispatch.py:207-220 | within the shortest signature a column's set is non-empty and holds only candidate indices |
| Resolver.WinningSets | runtype/dispatch.py:202-220 | one non-empty set of candidate indices per column that does not all agree |
| Resolver.WinningSetsStep | runtype/dispatch.py:204-220 | one more column appends its winning set exactly when its types do not all agree |
| Resolver.Intersection | runtype/dispatch.py:223 | membership in every set |
| Resolver.Union | runtype/dispatch.py:228 | membership in some set |
| Resolver.Resolve | runtype/dispatch.py:189-247 | a chosen function is one of the candidates |
| Resolver.Decide | runtype/dispatch.py:222-247 | a chosen function is one of the candidates |
| Resolver.AllEqual | runtype/dispatch.py:250-255 | the `all_eq` loop answers whether every element is the first |
| Resolver.ColumnWinners | runtype/dispatch.py:207-220 | the loop over the column builds its winning set |
| Resolver.ChooseMostSpecific | runtype/dispatch.py:189-247 | the method agrees with the specification `Resolve` |
| Resolver.DecideFrom | runtype/dispatch.py:222-247 | the intersection, union and priority steps agree with `Decide` |
| Resolver.MostSpecificPerParam | runtype/dispatch.py:202-220 | the column loop builds the winning sets of the columns that do not all agree, in order, skipping columns that all agree |
| Resolver.ShortestSignature | runtype/dispatch.py:204 | the loop computes the width of `zip(*sigs)` |
| Resolver.ByPriority | runtype/dispatch.py:228-247 | sorting by priority picks the candidate whose priority is strictly highest, and reports an ambiguity on a tie |
| Resolver.StrictTopUnique | runtype/dispatch.py:234-238 | at most one candidate has a priority strictly above all others |
| Resolver.PriorityPickTop | runtype/dispatch.py:234-238 | the candidate whose priority is strictly highest is picked |
| Resolver.PriorityPickTied | runtype/dispatch.py:234-247 | two candidates tied at the highest priority make the dispatch ambiguous |
| ResolverLemmas.MinimalExists | runtype/dispatch.py:207-208 | over a transitive `issubclass` every column has a minimal index, and the most specific index is one |
| ResolverLemmas.ColumnDominated | runtype/dispatch.py:207-218 | in a column where one index is equal to or strictly below every other, that index wins and every index of another type loses |
| ResolverLemmas.MostSpecificWins | runtype/dispatch.py:189-226 | a candidate at least as specific as every other in every parameter is chosen, whatever the priorities |
| ResolverLemmas.DominatingInAll | runtype/dispatch.py:202-220 | the dominating candidate is in every winning set |
| ResolverLemmas.OnlyDominatingInAll | runtype/dispatch.py:222-226 | no other candidate is in every winning set, so the intersection is the dominating one alone |
| ResolverLemmas.DifferingColumn | runtype/dispatch.py:205-220 | a candidate other than the dominating one is excluded from the winning set of some column |
| ResolverLemmas.ColumnSetIn | runtype/dispatch.py:204-220 | the winning set of every column that does not all agree is among the winning sets |
| ResolverLemmas.DifferingIndex | runtype/dispatch.py:204-206 | every column that does not all agree is among the differing columns |
| ResolverLemmas.InAllSets | runtype/dispatch.py:223 | an index in the winning set of every column is in every one of the winning sets |
| ResolverLemmas.CrossedCandidates | tests/test_basic.py:262-271 | two candidates each more specific in one column tie on equal priorities, and otherwise the higher priority wins |
| ResolverLemmas.CrossedSets | runtype/dispatch.py:204-220 | the two crossing columns contribute the sets {0} and {1} |
| ResolverLemmas.LoneWinner | runtype/dispatch.py:207-218 | in a column of two, the strictly more specific type wins alone and the column does not all agree |
| ResolverLemmas.SetsOfTwo | runtype/dispatch.py:223-228 | sets of two candidates that include {0} and {1} have an empty intersection and the union {0, 1} |
| ResolverLemmas.DecideOfTwo | runtype/dispatch.py:222-247 | over two candidates, disjoint sets leave the decision to the priorities |
| ResolverLemmas.PriorityOfTwo | runtype/dispatch.py:228-247 | between two candidates the higher priority wins and a tie is an ambiguity |
| ResolverLemmas.ResolverDecides | runtype/dispatch.py:222-247 | candidates with distinct signatures of one length always end in a choice or an ambiguity, never in the `set.intersection()` or `assert` failure |
| ResolverLemmas.DecideOfSome | runtype/dispatch.py:222-247 | with at least one set, the decision is a choice or an ambiguity |
| ResolverLemmas.UnionOfOne | runtype/dispatch.py:223-229 | when the union has fewer than two elements the intersection is a singleton, so the `assert` never fails |
| TrieLemmas.FollowMembers | runtype/dispatch.py:95-101 | `follow_arg` yields exactly the children whose edge type the argument is an instance of |
| TrieLemmas.FollowNoDup | runtype/dispatch.py:95-101 | distinct edges give distinct children |
| TrieLemmas.StepMembers | runtype/dispatch.py:136-142 | one lookup step reaches exactly the children of active nodes whose edge type admits the argument |
| TrieLemmas.UniqueParent | runtype/dispatch.py:176-181 | in a trie built by `define_function` a node hangs off one edge only |
| TrieLemmas.PathsDistinct | runtype/dispatch.py:176-181 | distinct nodes have distinct paths |
| TrieLemmas.ChildrenDistinct | runtype/dispatch.py:90-93 | the edges of one node lead to distinct children |
| TrieLemmas.StepDisjoint | runtype/dispatch.py:136-142 | what the first active nodes reach, the next one does not |
| TrieLemmas.StepNoDup | runtype/dispatch.py:136-142 | a step repeats no node |
| TrieLemmas.ReachExact | runtype/dispatch.py:133-142 | after k arguments the active nodes are exactly the nodes whose path admits those arguments, each once |
| TrieLemmas.ReachStepSound | runtype/dispatch.py:136-142 | every node reached for argument k has a path admitting the first k arguments |
| TrieLemmas.ChildAdmits | runtype/dispatch.py:95-101 | following an admitting edge from an admitting node gives an admitting path |
| TrieLemmas.ReachStepComplete | runtype/dispatch.py:136-142 | every node whose path admits k arguments is reached |
| TrieLemmas.ParentAdmits | runtype/dispatch.py:176-181 | the parent of an admitting node admits one argument fewer, by an edge admitting the last |
| TrieLemmas.CandidatesMembers | runtype/dispatch.py:144 | the candidates are exactly the leaves of the reached nodes |
| TrieLemmas.CandidateSource | runtype/dispatch.py:144 | every candidate comes from a reached node |
| TrieLemmas.CandidatesDistinct | runtype/dispatch.py:144 | leaves at distinct nodes have distinct signatures |
| TrieLemmas.MatchingExact | runtype/dispatch.py:133-144 | the candidates are exactly the registered leaves whose signature admits the arguments; their signatures are distinct and as long as the argument list |
| TrieLemmas.DispatchOutcomes | runtype/dispatch.py:133-154 | no match iff no registered signature admits the arguments; a single admitting leaf is returned; whatever is returned was registered under an admitting signature; the resolver fails only by an ambiguity |
| DefineLemmas.NewPathFresh | runtype/dispatch.py:179-180 | the path a new child would get belongs to no node yet |
| DefineLemmas.AddChildEdges | runtype/dispatch.py:179-180 | after a child is created, every edge still leads to a later node extending its parent's path |
| DefineLemmas.AddChildKeys | runtype/dispatch.py:179-180 | after a child is created, no node has two edges of one type |
| DefineLemmas.AddChildParents | runtype/dispatch.py:179-180 | after a child is created, every node but the root still has a parent |
| DefineLemmas.AddChildPaths | runtype/dispatch.py:179-180 | after a child is created, paths stay distinct |
| DefineLemmas.AddChildWellFormed | runtype/dispatch.py:179-180 | creating a child keeps the trie well formed and registers nothing |
| DefineLemmas.SetLeafWellFormed | runtype/dispatch.py:187 | storing a leaf at an empty node under the node's own path keeps the trie well formed and adds just that leaf |
| DefineLemmas.TakenAt | runtype/dispatch.py:182-186 | a node holds a function exactly when its path is a taken signature |
| DefineLemmas.InstallOutcome | runtype/dispatch.py:176-187 | registering distinct signatures, of which the first k are free and the next is taken, installs the first k and reports the next |
| DefineLemmas.SignaturesDistinct | runtype/utils.py:3-25 | the signatures of one function are distinct |
| DefineLemmas.DefineOutcome | runtype/dispatch.py:176-187 | `define_function` installs every signature when none is taken, and otherwise reports the first taken one, having installed those before it |
| Dispatch.FuncsGrow | runtype/dispatch.py:187 | more leaves register more functions |
| Dispatch.WalkArgs | runtype/dispatch.py:134-142 | the loop over the arguments ends at the specification `Reach` of all of them |
| Dispatch.StepArg | runtype/dispatch.py:136-142 | the comprehension over the active nodes is the specification `Step` |
| Dispatch.CollectFuncs | runtype/dispatch.py:144 | the functions of the nodes reached are the specification `Candidates` |
| Dispatch.FoundRegistered | runtype/dispatch.py:144-154 | a function a lookup finds is registered in the trie |
| Dispatch.FollowArg | runtype/dispatch.py:95-101 | the `follow_arg` loop yields the specification `Follow` of the edges |
| Dispatch.FollowByType | runtype/dispatch.py:95-101 | two arguments that are instances of the same types follow the same edges |
| Dispatch.StepByType | runtype/dispatch.py:136-142 | two arguments that are instances of the same types take the same step |
| Dispatch.AlikeUpToAll | runtype/dispatch.py:133-142 | argument lists alike at every position are alike on every prefix |
| Dispatch.ReachAlike | runtype/dispatch.py:133-142 | argument lists whose arguments are, position by position, instances of the same types reach the same nodes |
| Dispatch.ReachByType | runtype/dispatch.py:133-142 | argument lists of the same types reach the same nodes |
| Dispatch.CacheKeySound | runtype/dispatch.py:166-174 | argument lists of the same types dispatch alike, so keying the cache by argument types answers what a lookup would |
| Dispatch.TypeTree.constructor | runtype/dispatch.py:111-117 | a new tree has an empty table and an empty cache |
| Dispatch.TypeTree.FindFunction | runtype/dispatch.py:133-154 | the lookup is the specification `Dispatch`; a function found is registered; the resolver fails only by an ambiguity |
| Dispatch.TypeTree.FindFunctionCached | runtype/dispatch.py:166-174 | a cached key answers from the cache; otherwise the lookup is `Dispatch` and a found function is cached under the argument types; the trie is unchanged; with `isinstance` decided by type and a current cache, the answer is what a fresh lookup gives |
| Dispatch.TypeTree.FollowType | runtype/dispatch.py:179-180 | `node.follow_type[t]` returns the child along t, created when missing; it registers nothing and keeps the cache |
| Dispatch.TypeTree.DefineFunction | runtype/dispatch.py:176-187 | registration is the specification `Install` of the function's signatures: installs in order until the first taken one, which the ValueError reports; the cache is not touched |
| Dispatch.MultiDispatch.constructor | runtype/dispatch.py:27-34 | a new dispatcher has no trees |
| Dispatch.MultiDispatch.TreeFor | runtype/dispatch.py:53-59 | the tree of a qualified name, created empty on first use; other trees are kept |
| Dispatch.MultiDispatch.Register | runtype/dispatch.py:53-71 | decorating a function defines it in its name's tree (as `Install` specifies) and leaves every other tree unchanged |
| Dispatch.MultiDispatch.DefineIn | runtype/dispatch.py:61 | defining the function in its name's tree installs its signatures as `Install` specifies, keeps the cache and no other tree is that tree |
| Dispatch.MultiDispatch.Call | runtype/dispatch.py:36-71 | without a function a priority gives a `MultiDispatchWithOptions` and no priority a ValueError; both together are a ValueError; on those paths no tree changes; a function alone is registered |
| Dispatch.MultiDispatch.CallWithOptions | runtype/dispatch.py:80-87 | with options the function is registered with the given priority |
| Dispatch.MultiDispatch.Invoke | runtype/dispatch.py:64-69 | calling the wrapper dispatches through the name's cached lookup: a registered function, or an ambiguity, and the table unchanged |
| DispatchExamples.SumIntsBothInts | tests/test_basic.py:160-179 | `sum_ints(13, 27)` chooses `(x: int, y: int)` among the four definitions |
| DispatchExamples.SumIntsFirstInt | tests/test_basic.py:160-179 | `sum_ints(27, "b")` chooses `(x: int, y)` |
| DispatchExamples.CrossedDefinitions | tests/test_basic.py:262-271 | the crossed definitions of `g` are ambiguous at equal priority |
| DispatchExamples.OneParam | tests/test_basic.py:105-111 | one annotated parameter without a default gives a single signature |
| DispatchExamples.InstallFree | runtype/dispatch.py:176-187 | a free signature is installed |
| DispatchExamples.InstallClash | tests/test_basic.py:113-120 | a taken signature is reported and nothing is installed |
| DispatchExamples.BasicDefinitions | tests/test_basic.py:102-120 | `f(i: int)` and `f(s: str)` register, and a second `f(x: int)` raises on the signature `[int]` |
| DispatchExamples.BasicScenario | tests/test_basic.py:102-129 | `f(1)` picks the int version, `f("1")` the str version, and `g("1")` finds no function |
| DispatchExamples.MissScenario | tests/test_basic.py:122-129 | a tree holding only `g(i: int)` finds no function for `g("1")` |
| DispatchExamples.NoneAdmits | tests/test_basic.py:129 | a string is admitted by no signature `(int,)` |
| DispatchExamples.BasicLookup | tests/test_basic.py:126-127 | a cached lookup of one argument picks the definition of its class and caches it |
| DispatchExamples.OnlyMatch | tests/test_basic.py:126-127 | the only registered leaf admitting the argument is the definition of its class |

## Specification functions

The operations below are specification functions. Each is stated by the members
named in its row, which appear in the table above.

| function | source | stated by |
|---|---|---|
| `Relation.Le` | runtype/base_types.py:264-266 | RelationLemmas.GeIsReversedLe, FallbackIsEquality, TupleRelations, OneOfRelations, LeSound, and the rule lemmas listed for `Relation.DispatchedLe` |
| `Relation.Ge` | runtype/base_types.py:268-270 | RelationLemmas.GeIsReversedLe, ReflectedDataExamples, TupleRelations, OneOfRelations |
| `Relation.RightSubclass` | runtype/pytypes.py:302-368 | RelationLemmas.GeIsReversedLe, DataLe, ReflectedDataExamples |
| `Relation.Eq` | runtype/base_types.py:272-294 | RelationLemmas.EqReflexive, PhantomGenericNotSelfEqual, GenericAnyEqualsBase |
| `Relation.DispatchedLe` | runtype/base_types.py:300-381 | Relation.Chosen, Relation.ChosenResolves, RelationLemmas.SumLeftLe, SumRightLe, ProductLe, GenericPairLe, GenericLeftLe, GenericRightLe, PhantomItemRightLe, PhantomItemLeftLe, PhantomBaseLe, ConstraintPairLe, ConstraintLeftLe |
| `Relation.AnyLe` | runtype/base_types.py:300-320 | RelationLemmas.AnyLeAgrees, AnyNotLeData |
| `Relation.AltsLe` | runtype/base_types.py:314-316 | RelationLemmas.AltsLeMembers, SumLeftLe |
| `Relation.LeAlts` | runtype/base_types.py:318-320 | RelationLemmas.LeAltsMembers, SumRightLe |
| `Conformance.Check` | runtype/pytypes.py:69-211 | Conformance.ValidateInstance, ValidateProduct, ValidateSum, ValidateSequence, ValidateDict, ValidateConstraint, and the `ConformanceLemmas` rows |
| `Conformance.Conforms` | runtype/base_types.py:220-230 | Conformance.TestInstance, ConformanceLemmas.SumConformsIff, ProductConformsIff, SequenceConformsIff, DictConformsIff, OneOfConformsIff, ConstraintConformsIff |
| `Conformance.SequenceItems` | runtype/pytypes.py:230-234 | Conformance.ValidateElements, ConformanceLemmas.SequenceConformsIff |
| `Conformance.DictItems` | runtype/pytypes.py:260-267 | Conformance.ValidateEntries, ConformanceLemmas.DictConformsIff, DictMalformedItem |
| `Constructors.Plus` | runtype/base_types.py:43-59 | Constructors.PlusUnfold, PlusAny, PlusCommutes, PlusIdempotent, PlusFlat, PlusAssociative, PlusConforms |
| `Constructors.SumCreated` | runtype/base_types.py:86-100 | Constructors.SumCreate, SumCreatedConforms |
| `Constructors.SumOf` | runtype/base_types.py:98-100 | Constructors.SumOfFlat, SumOfConforms |
| `Constructors.Times` | runtype/base_types.py:46-47 | Constructors.TimesParts, TimesAssociative |
| `Constructors.Flattened` | runtype/base_types.py:116-125 | Constructors.FlattenedAppend, ProductCreate, ProductCreatedParts |
| `Canon.CanonOf` | runtype/pytypes.py:445-533 | Canon.TypeCaster.ToCanon, Canon.TypeCaster.Canonize, and the `CanonLemmas` rows |
| `Canon.SubscriptCanon` | runtype/pytypes.py:490-527 | CanonLemmas.SubscriptOneAgrees, SubscriptArity, TupleEllipsisCanon, TupleProductCanon, DictCanon, UnionOfParts |
| `Canon.BareCanon` | runtype/pytypes.py:399-417 | CanonLemmas.CanonClassExamples |
| `Canon.Subscripted`, `Canon.SubscriptOne` | runtype/pytypes.py:490-498 | Canon.TypeCaster.CanonizeOne, CanonLemmas.SubscriptOneAgrees, CanonAnyItemExamples |
| `Canon.SubscriptDict` | runtype/pytypes.py:499-501 | Canon.TypeCaster.CanonizeDict, CanonLemmas.DictCanon |
| `DispatchTrie.Follow` | runtype/dispatch.py:95-101 | TrieLemmas.FollowMembers, FollowNoDup, Dispatch.FollowArg |
| `DispatchTrie.Step` | runtype/dispatch.py:136-142 | TrieLemmas.StepMembers, StepDisjoint, StepNoDup, Dispatch.StepArg |
| `DispatchTrie.Reach` | runtype/dispatch.py:133-142 | TrieLemmas.ReachExact, ReachStepSound, ReachStepComplete, Dispatch.WalkArgs |
| `DispatchTrie.Candidates` | runtype/dispatch.py:144 | TrieLemmas.CandidatesMembers, CandidateSource, CandidatesDistinct, Dispatch.CollectFuncs |
| `DispatchTrie.Matching` | runtype/dispatch.py:133-144 | TrieLemmas.MatchingExact |
| `DispatchTrie.Dispatch` | runtype/dispatch.py:133-154 | TrieLemmas.DispatchOutcomes, Dispatch.TypeTree.FindFunction |
| `DispatchTrie.Install` | runtype/dispatch.py:176-187 | DefineLemmas.InstallOutcome, DefineOutcome, Dispatch.TypeTree.DefineFunction |
| `Signatures.SignaturesOf` | runtype/utils.py:3-25 | Signatures.GetFuncSignatures, SignatureFamily |
| `Signatures.FullSignature`, `Signatures.ParamType` | runtype/utils.py:11-16 | Signatures.SignatureFamily |
| `Signatures.DefaultPrefixes` | runtype/utils.py:18-20 | Signatures.DefaultPrefixesShape |
| `Resolver.Below`, `Resolver.Minimal` | runtype/dispatch.py:197-208 | Resolver.FirstMinimal, ResolverLemmas.MinimalExists |
| `Resolver.Joins` | runtype/dispatch.py:210-218 | Resolver.WinningSet, ResolverLemmas.ColumnDominated |
| `Resolver.PriorityPick` | runtype/dispatch.py:230-247 | Resolver.PriorityPickTop, PriorityPickTied, StrictTopUnique |

## Left out

- `cast_from` and the cast machinery of every kind: these are not part of the type poset or dispatch core.
- The `sampler` argument of `validate_instance`: the model validates every element.
- Floats, dates and times (`Float`, `DateTime`, `Date`, `Time`, `TimeDelta`): they are only further Python data types, representable as `Data(k)`.
- `ForwardRef` evaluation: the model's caster has no frame, so a forward reference raises RuntimeError, the path the source takes without a frame.
- Python's typing introspection (`__origin__`, `__args__`, `Annotated`): annotations are an abstract datatype of the forms `_to_canon` tells apart.
- The `Callable` and `Type[...]` forms: they canonicalize to the Python data types `Callable` and `type`, and their arguments are ignored, as in the source.
- `test_subtypes` (deprecated), `_old_find_function_cached`, `__enter__`/`__exit__`, reprs, hashes and error message text.
- `functools.wraps` and keyword arguments of the dispatched call: the model dispatches on the positional arguments.
- Python object identity (`is`) on types: modelled as structural equality. The `Any` of `runtype/base_types.py` and the one of `runtype/pytypes.py` are told apart by their `Layer`, as are the two modules' sums and products; two equal but distinct instances are not.
- Python `==` on lists, dicts and plain objects: `Values.PyEq` compares them structurally. Only ints (bools among them), strings and tuples follow Python's equality across classes.
- Hashing in `set(self.values)`: a literal holding a list or dict raises TypeError in the source. The model compares such values without raising.
- RelationLemmas.LeSound: holds only for values on which `==` is structural (`Values.Plain`). With `True == 1`, a literal below `bool` accepts the int 1, which `bool` rejects (`RelationLemmas.LiteralLeNotSound`).
- ConformanceLemmas.DictMalformedItem: and `Conformance.DictItems`. For a dict type whose item is a sum of exactly two alternatives, `kt, vt = self.item.types` unpacks the frozenset in an order that depends on hashes. No fixed order is faithful, so the model raises the malformed-item error there instead.
- Variances of `Iter`, `Sequence`, `Set`, `FrozenSet` and `TupleEllipsis`: `GenericType.__init__` in `runtype/pytypes.py:221-223` passes none, so these are modelling choices: `Set` invariant as a mutable container, the others covariant. Only those of `List`, `Dict` and `Mapping` are pinned by `tests/test_types.py:276-286`.
- A plain `PythonDataType` of `int`, `str`, `float` or a date or time class, built directly: `Data(k)` of those kernels always stands for the subclass constant `to_canon` maps them to (`Types.SubclassKernel`), so the model cannot express one that compares without the reflected-operand priority.
- Frozenset iteration order: sums and frozensets are sets. Where the outcome could depend on the order, the decisive answer wins (a False in `all`, a True in `any`, an accepting alternative). Otherwise the first exception is taken in a fixed order of kinds.
- `Resolver.FirstMinimal`: the Python `sort` by the `IsSubclass` key is not a total order. The model takes the first minimal index of each column, which is an element a correct sort would put first.
- `Dispatch.TypeTree.FindFunctionCached`: `define_function` never clears `_cache`, so a cached answer may predate later definitions. The model keeps this. Equality with a fresh lookup is proved only while the cache is current.
- `DispatchTrie.Node`: nodes are indices into one sequence rather than objects. The `defaultdict` is an edge list in insertion order.
- The concrete class hierarchy (`issubclass` on kernels) and the dispatcher's type system (`isinstance`, `get_type`, `canonize_type`, `default_type`, `any_type`) are parameters.
- `TypeSystems.TypeSystem`: `runtype/typesystem.py:3-14` declares `issubclass`, `canonize_type` and `get_type` abstract and gives `isinstance` its default, `issubclass(get_type(obj), t)`, which the model states as a hypothesis where it is needed. `default_type` and `any_type`, read at `runtype/utils.py:13` and `runtype/dispatch.py:191`, are declared nowhere in that file and `PythonBasic` (`runtype/typesystem.py:18-22`) supplies neither; here they are parameters of the model, the fields `defaultType` and `anyType`.

## Notes on the code as written

- **Tuple comparisons.** `tests/test_types.py:203-204` asserts `Tuple[int] <= Tuple` and `Tuple[int, ...] <= Tuple`. The rule table and `TupleType.__ge__` give False for both: the product and the tuple sequence meet Tuple only through the fallback rule and the data-type comparison. The model follows the code (`CanonLemmas.ProductNotBelowTuple`).
- **Phantom generic equality.** `eq` for two phantom generics (`runtype/base_types.py:292-294`) compares one side's item with the other's base. So `P[x] == P[x]` is False (`RelationLemmas.PhantomGenericNotSelfEqual`).
- **Sums holding Tuple.** `TupleType.__le__` answers False for every sum. So a sum holding Tuple is not `<=` itself (`RelationLemmas.SumWithTupleNotReflexive`).
- **Variance of generics.** In `runtype/pytypes.py:221-223`, `GenericType.__init__` passes no variance to the base constructor. The model follows `runtype/base_types.py:156-167`, where every generic has a variance. `tests/test_types.py:276-286` pins `List` and `Dict` as invariant and `Mapping` as covariant; the variances of the other constants are the model's choice (see Left out). Subscription has the converse problem: `GenericType.__getitem__` (`runtype/base_types.py:174-175`) calls `type(self)(self, item, self.variance)`, three arguments, while the `__init__` of pytypes' `GenericType` (`runtype/pytypes.py:221-222`), which `SequenceType` inherits, takes at most two, so `List[int]` raises TypeError as written (`DictType` has its own two-argument `__getitem__`). `Constructors.GenericOf` models the evident intent instead: the base constructor's check that the item is below, and the variance carried over.
- **The `all_eq` skip.** `choose_most_specific_function` skips a column only when all its types are equal. Leaves reached by one lookup have distinct signatures of equal length, so some column always differs. `ResolverLemmas.ResolverDecides` shows that the resolver then never reaches `set.intersection()` with no argument, nor the failing `assert`.
- **Two Anys.** `runtype/pytypes.py:69-77` defines a second `Any`. `GenericRight` in `runtype/base_types.py:351-353` tests `other.item is Any` against the base_types one, while the pytypes generics default to the pytypes one. So `String <= Iter` is False, though `str` is `Iterable` (`Constructors.StringNotBelowIter`).
- **Operators build base_types classes.** `+` and `*` (`runtype/base_types.py:43-47`) build base_types sums and products, which have no `validate_instance` and are no `PythonType`. So `Literal[1, "a"] <= Int + String` is False while `Literal[1, "a"] <= Union[int, str]` is True, and `Tuple >= Int * Int` is False (`Constructors.LiteralNotBelowPlus`, `LiteralBelowUnion`, `TupleAboveProducts`).
- **Reflected operands on data types.** `PythonDataType` defines only `__le__` (`runtype/pytypes.py:128-132`); `>=` is `Type.__ge__`, the dispatched `ge`, which for two data types reaches the fallback `==`. So `Object >= Bytes` is False. `Int`, `String`, `Float` and the date and time constants are instances of subclasses, so Python asks them first when they are the right operand: `Object >= Int` is True, and `PythonDataType(bool) <= Int` is False (`RelationLemmas.ReflectedDataExamples`).
- **`test_instance` is abstract.** `Validator.test_instance` (`runtype/base_types.py:220-230`) is an `@abstractmethod` whose body is commented out (lines 226-230), and no `PythonType` of `runtype/pytypes.py` overrides it; only `Constraint` does (`runtype/base_types.py:248`). As written, `AnyType()` and every other pytypes instance cannot be instantiated, and `SumType.validate_instance` (`runtype/pytypes.py:104`) could not call it. The model adopts the commented-out body, which `tests/test_types.py:111-126` expect: `Conformance.TestInstance` is True when validation passes, False on a mismatch, and lets other exceptions through.
