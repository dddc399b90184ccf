/**
 * `TypeCaster.to_canon`: from a host annotation to a runtype type, memoized.
 *
 * Annotations are an abstract datatype standing for what `_to_canon` tells
 * apart by introspection: runtype types, plain classes, `typing.Any`, type
 * variables, forward references, tuples of annotations, `Annotated[...]`,
 * the bare and the subscripted forms of `typing`, `Literal[...]` and `...`.
 */
module Canon {
  import opened Values
  import opened Types
  import opened Conformance
  import opened Relation
  import opened ConformanceLemmas
  import opened RelationLemmas
  import opened Constructors

  /** The `typing` forms `_to_canon` distinguishes by their origin. */
  datatype Form =
    | ListForm | SetForm | FrozenSetForm | DictForm | TupleForm | UnionForm
    | CallableForm | MappingForm | SequenceForm | TypeForm
    | OtherForm(name: string)   // any other generic alias of `typing`

  datatype Annot =
    | TypeAnnot(t: Ty)                        // already a runtype type
    | ClassAnnot(k: Kernel)                   // a host class (or other object) by name
    | TypingAny                               // typing.Any
    | TypeVarAnnot(name: string)              // a typing.TypeVar
    | ForwardRefAnnot(name: string)           // a string forward reference
    | UnionTuple(elems: seq<Annot>)           // a tuple of annotations
    | AnnotatedAnnot(origin: Annot)           // Annotated[origin, ...]
    | BareForm(form: Form)                    // typing.List, typing.Dict, ... without arguments
    | Subscript(form: Form, args: seq<Annot>) // List[int], Union[int, str], Tuple[int, ...], ...
    | LiteralAnnot(values: seq<Value>)        // Literal[v1, v2, ...]
    | EllipsisAnnot                           // the `...` inside Tuple[t, ...]

  /** `_type_cast_mapping`, consulted before `_to_canon`. */
  const CastMap: map<Kernel, Ty> := map[
    "iter" := IterT, "list" := ListT, "set" := SetT, "frozenset" := FrozenSetT,
    "dict" := DictT, "tuple" := TupleT, "int" := IntT, "str" := StringT,
    "float" := FloatT, "bytes" := BytesT, "NoneType" := NoneTypeT, "object" := PyAny,
    "datetime" := DateTimeT, "date" := DateT, "time" := TimeT, "timedelta" := TimeDeltaT]

  function CastMapping(a: Annot): (r: Option<Ty>)
    ensures a.TypingAny? ==> r == Some(PyAny)
    ensures a.ClassAnnot? ==> (r.Some? <==> a.k in CastMap)
    ensures !a.ClassAnnot? && !a.TypingAny? ==> r.None?
  {
    match a
    case ClassAnnot(k) => if k in CastMap then Some(CastMap[k]) else None
    case TypingAny => Some(PyAny)
    case _ => None
  }

  /** `[to_canon(x) for x in args]`: the first exception, or every result. */
  function CanonSeq(rs: seq<Result<Ty>>): (r: Result<seq<Ty>>)
    ensures r.Made? <==> forall i | 0 <= i < |rs| :: rs[i].Made?
    ensures r.Made? ==> |r.value| == |rs| && forall i | 0 <= i < |rs| :: rs[i] == Made(r.value[i])
    ensures forall k | 0 <= k < |rs| && rs[k].Raised? && (forall i | 0 <= i < k :: rs[i].Made?) ::
      r == Raised(rs[k].exc)
  {
    if rs == [] then Made([])
    else if rs[0].Raised? then Raised(rs[0].exc)
    else
      var tail := CanonSeq(rs[1..]);
      assert forall i | 1 <= i < |rs| :: rs[i] == rs[1..][i - 1];
      if tail.Raised? then
        assert forall k | 1 <= k < |rs| && rs[k].Raised? && (forall i | 0 <= i < k :: rs[i].Made?) ::
          rs[1..][k - 1].Raised? && forall i | 0 <= i < k - 1 :: rs[1..][i].Made?;
        tail
      else Made([rs[0].value] + tail.value)
  }

  /** `g[x]` for one of the unparameterised generics (item Any, so it never raises). */
  function Subscripted(g: Ty, x: Ty): Ty
    requires g.Generic?
  {
    Generic(g.base, x, g.variance, g.container)
  }

  /** The specification of `to_canon(a)`. */
  function CanonOf(a: Annot): Result<Ty>
    decreases a, 1
  {
    if CastMapping(a).Some? then Made(CastMapping(a).value)
    else match a
      case TypeAnnot(t) => Made(t)
      case ClassAnnot(k) => Made(Data(k))
      case TypingAny => Made(PyAny)
      case TypeVarAnnot(_) => Made(PyAny)
      case ForwardRefAnnot(_) => Raised(RuntimeErr)
      case UnionTuple(elems) =>
        (match CanonAll(elems)
         case Made(ts) => Made(SumInit(ts))
         case Raised(e) => Raised(e))
      case AnnotatedAnnot(origin) => CanonOf(origin)
      case BareForm(f) => BareCanon(f)
      case LiteralAnnot(values) => Made(OneOf(values))
      case EllipsisAnnot => Made(Data("ellipsis"))
      case Subscript(f, args) => SubscriptCanon(f, args)
  }

  /** `_to_canon` of a subscripted `typing` form, by its origin. */
  function SubscriptCanon(f: Form, args: seq<Annot>): Result<Ty>
    decreases Subscript(f, args), 0
  {
    match f
    case ListForm => if |args| != 1 then Raised(ValueErr) else SubscriptOne(ListT, CanonOf(args[0]))
    case SetForm => if |args| != 1 then Raised(ValueErr) else SubscriptOne(SetT, CanonOf(args[0]))
    case FrozenSetForm => if |args| != 1 then Raised(ValueErr) else SubscriptOne(FrozenSetT, CanonOf(args[0]))
    case SequenceForm => if |args| != 1 then Raised(ValueErr) else SubscriptOne(SequenceT, CanonOf(args[0]))
    case DictForm => if |args| != 2 then Raised(ValueErr) else SubscriptDict(DictT, CanonOf(args[0]), CanonOf(args[1]))
    case MappingForm => if |args| != 2 then Raised(ValueErr) else SubscriptDict(MappingT, CanonOf(args[0]), CanonOf(args[1]))
    case TupleForm =>
      if EllipsisAnnot in args then
        if |args| != 2 || args[0] == EllipsisAnnot then Raised(ValueErr)
        else SubscriptOne(TupleEllipsisT, CanonOf(args[0]))
      else
        (match CanonAll(args)
         case Made(ts) => Made(Product(ts, Py))
         case Raised(e) => Raised(e))
    case UnionForm =>
      (match CanonAll(args)
       case Made(ts) => Made(SumInit(ts))
       case Raised(e) => Raised(e))
    case CallableForm => Made(CallableT)
    case TypeForm => Made(Data("type"))
    case OtherForm(_) => Raised(NotImplementedErr)
  }

  /** `[to_canon(x) for x in args]`: the first exception, or the canonical form of every part. */
  function CanonAll(args: seq<Annot>): (r: Result<seq<Ty>>)
    ensures r.Made? <==> forall i | 0 <= i < |args| :: CanonOf(args[i]).Made?
    ensures r.Made? ==> |r.value| == |args| && forall i | 0 <= i < |args| :: CanonOf(args[i]) == Made(r.value[i])
    ensures forall k | 0 <= k < |args| && CanonOf(args[k]).Raised? && (forall i | 0 <= i < k :: CanonOf(args[i]).Made?) ::
      r == Raised(CanonOf(args[k]).exc)
    decreases args, 2
  {
    var rs := seq(|args|, i requires 0 <= i < |args| => CanonOf(args[i]));
    assert forall i | 0 <= i < |args| :: rs[i] == CanonOf(args[i]);
    CanonSeq(rs)
  }

  /** The bare `typing` forms. */
  function BareCanon(f: Form): Result<Ty> {
    match f
    case ListForm => Made(ListT)
    case DictForm => Made(DictT)
    case SetForm => Made(SetT)
    case FrozenSetForm => Made(FrozenSetT)
    case TupleForm => Made(TupleT)
    case MappingForm => Made(MappingT)
    case SequenceForm => Made(SequenceT)
    case CallableForm => Made(CallableT)
    case TypeForm => Made(Data("type"))
    case UnionForm => Made(Data("Union"))
    case OtherForm(_) => Raised(NotImplementedErr)
  }

  function SubscriptOne(g: Ty, x: Result<Ty>): Result<Ty>
    requires g.Generic?
  {
    match x
    case Made(t) => Made(Subscripted(g, t))
    case Raised(e) => Raised(e)
  }

  function SubscriptDict(d: Ty, k: Result<Ty>, v: Result<Ty>): Result<Ty>
    requires d.Generic?
  {
    if k.Raised? then Raised(k.exc)
    else if v.Raised? then Raised(v.exc)
    else DictOf(d, PairArg([k.value, v.value]))
  }

  /** Annotations are children of a parent annotation. */
  predicate ChildrenOf(parent: Annot, args: seq<Annot>) {
    (parent.UnionTuple? && args == parent.elems) || (parent.Subscript? && args == parent.args)
  }

  /** `TypeCaster`: `to_canon` with its memo cache. It has no frame, so forward
    * references cannot be evaluated. */
  class TypeCaster {
    var cache: map<Annot, Ty>

    /** Every cached result is the canonical type of its key. */
    ghost predicate Valid()
      reads this
    {
      forall a | a in cache :: CanonOf(a) == Made(cache[a])
    }

    constructor ()
      ensures Valid() && cache == map[]
    {
      cache := map[];
    }

    /** `to_canon(a)`: the cached result, else the mapping, else `_to_canon`; a
      * result is stored, an exception is not. */
    method ToCanon(a: Annot) returns (r: Result<Ty>)
      requires Valid()
      modifies this
      ensures Valid()
      ensures r == CanonOf(a)
      ensures r.Made? <==> a in cache
      ensures a in old(cache) ==> cache == old(cache) && r == Made(old(cache)[a])
      ensures forall k | k in old(cache) :: k in cache && cache[k] == old(cache)[k]
      decreases a, 2
    {
      if a in cache {
        return Made(cache[a]);
      }
      var m := CastMapping(a);
      if m.Some? {
        r := Made(m.value);
      } else {
        r := Canonize(a);
      }
      if r.Made? {
        cache := cache[a := r.value];
      }
    }

    /** `_to_canon(a)`, which canonicalizes the parts of a through `to_canon`. */
    method Canonize(a: Annot) returns (r: Result<Ty>)
      requires Valid() && CastMapping(a).None?
      modifies this
      ensures Valid()
      ensures r == CanonOf(a)
      ensures forall k | k in old(cache) :: k in cache && cache[k] == old(cache)[k]
      decreases a, 1
    {
      match a
      case TypeAnnot(t) => r := Made(t);
      case ClassAnnot(k) => r := Made(Data(k));
      case TypingAny => r := Made(PyAny);
      case TypeVarAnnot(_) => r := Made(PyAny);
      case ForwardRefAnnot(_) => r := Raised(RuntimeErr);
      case UnionTuple(elems) =>
        var ts := CanonizeEach(a, elems);
        r := if ts.Made? then Made(SumInit(ts.value)) else Raised(ts.exc);
      case AnnotatedAnnot(origin) => r := ToCanon(origin);
      case BareForm(f) => r := BareCanon(f);
      case LiteralAnnot(values) => r := Made(OneOf(values));
      case EllipsisAnnot => r := Made(Data("ellipsis"));
      case Subscript(f, args) =>
        match f
        case ListForm => r := CanonizeOne(a, ListT);
        case SetForm => r := CanonizeOne(a, SetT);
        case FrozenSetForm => r := CanonizeOne(a, FrozenSetT);
        case SequenceForm => r := CanonizeOne(a, SequenceT);
        case DictForm => r := CanonizeDict(a, DictT);
        case MappingForm => r := CanonizeDict(a, MappingT);
        case TupleForm =>
          if EllipsisAnnot in args {
            if |args| != 2 || args[0] == EllipsisAnnot {
              r := Raised(ValueErr);
            } else {
              var x := ToCanon(args[0]);
              r := SubscriptOne(TupleEllipsisT, x);
            }
          } else {
            var ts := CanonizeEach(a, args);
            r := if ts.Made? then Made(Product(ts.value, Py)) else Raised(ts.exc);
          }
        case UnionForm =>
          var ts := CanonizeEach(a, args);
          r := if ts.Made? then Made(SumInit(ts.value)) else Raised(ts.exc);
        case CallableForm => r := Made(CallableT);
        case TypeForm => r := Made(Data("type"));
        case OtherForm(_) => r := Raised(NotImplementedErr);
    }

    /** `x ,= t.__args__; return g[to_canon(x)]` */
    method CanonizeOne(a: Annot, g: Ty) returns (r: Result<Ty>)
      requires Valid() && a.Subscript? && g.Generic?
      modifies this
      ensures Valid()
      ensures r == if |a.args| != 1 then Raised(ValueErr) else SubscriptOne(g, CanonOf(a.args[0]))
      ensures forall k | k in old(cache) :: k in cache && cache[k] == old(cache)[k]
      decreases a, 0
    {
      if |a.args| != 1 {
        return Raised(ValueErr);
      }
      var x := ToCanon(a.args[0]);
      r := SubscriptOne(g, x);
    }

    /** `k, v = t.__args__; return d[to_canon(k), to_canon(v)]` */
    method CanonizeDict(a: Annot, d: Ty) returns (r: Result<Ty>)
      requires Valid() && a.Subscript? && d.Generic?
      modifies this
      ensures Valid()
      ensures r == if |a.args| != 2 then Raised(ValueErr) else SubscriptDict(d, CanonOf(a.args[0]), CanonOf(a.args[1]))
      ensures forall k | k in old(cache) :: k in cache && cache[k] == old(cache)[k]
      decreases a, 0
    {
      if |a.args| != 2 {
        return Raised(ValueErr);
      }
      var k := ToCanon(a.args[0]);
      if k.Raised? {
        return Raised(k.exc);
      }
      var v := ToCanon(a.args[1]);
      r := SubscriptDict(d, k, v);
    }

    /** `[to_canon(x) for x in args]`, stopping at the first exception. */
    method CanonizeEach(ghost parent: Annot, args: seq<Annot>) returns (r: Result<seq<Ty>>)
      requires Valid() && ChildrenOf(parent, args)
      modifies this
      ensures Valid()
      ensures r == CanonAll(args)
      ensures forall k | k in old(cache) :: k in cache && cache[k] == old(cache)[k]
      decreases parent, 0
    {
      var tys: seq<Ty> := [];
      for i := 0 to |args|
        invariant Valid()
        invariant |tys| == i && forall j | 0 <= j < i :: CanonOf(args[j]) == Made(tys[j])
        invariant forall k | k in old(cache) :: k in cache && cache[k] == old(cache)[k]
      {
        assert args[i] in args;
        var x := ToCanon(args[i]);
        if x.Raised? {
          return Raised(x.exc);
        }
        tys := tys + [x.value];
      }
      assert CanonAll(args).value == tys;
      r := Made(tys);
    }
  }
}
