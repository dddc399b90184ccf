/** What `to_canon` produces for each kind of annotation. */
module CanonLemmas {
  import opened Values
  import opened Types
  import opened Conformance
  import opened Relation
  import opened ConformanceLemmas
  import opened RelationLemmas
  import opened Constructors
  import opened Canon

  /** The builtin classes name the same types as the bare forms of `typing`. */
  lemma CanonClassExamples()
    ensures CanonOf(ClassAnnot("object")) == Made(PyAny) && CanonOf(TypingAny) == Made(PyAny)
    ensures CanonOf(ClassAnnot("list")) == CanonOf(BareForm(ListForm)) == Made(ListT)
    ensures CanonOf(ClassAnnot("tuple")) == CanonOf(BareForm(TupleForm)) == Made(Tuple)
    ensures CanonOf(ClassAnnot("dict")) == CanonOf(BareForm(DictForm)) == Made(DictT)
  {
    assert CastMapping(ClassAnnot("object")) == Some(PyAny);
    assert CastMapping(ClassAnnot("list")) == Some(ListT);
    assert CastMapping(ClassAnnot("tuple")) == Some(Tuple);
    assert CastMapping(ClassAnnot("dict")) == Some(DictT);
  }

  /** Subscripting a bare form by Any gives the bare form back; for a dict the
    * pair becomes a product of pytypes, equal to the default `Any * Any`. */
  lemma CanonAnyItemExamples()
    ensures CanonOf(Subscript(ListForm, [TypingAny])) == Made(ListT)
    ensures CanonOf(Subscript(DictForm, [TypingAny, TypingAny])) ==
      Made(Generic(Data("dict"), Product([PyAny, PyAny], Py), Invariant, DictContainer))
    ensures Eq(CanonOf(Subscript(DictForm, [TypingAny, TypingAny])).value, DictT)
  {
    DictDefaultItem();
  }

  /** A runtype type is its own canonical form, a type variable stands for Any
    * and a class outside the mapping becomes a Python data type. */
  lemma CanonOfKnownForms(t: Ty, name: string, k: Kernel)
    ensures CanonOf(TypeAnnot(t)) == Made(t)
    ensures CanonOf(TypeVarAnnot(name)) == Made(PyAny)
    ensures CanonOf(ForwardRefAnnot(name)) == Raised(RuntimeErr)
    ensures k !in CastMap ==> CanonOf(ClassAnnot(k)) == Made(Data(k))
  {
  }

  /** The canonical forms of a sequence of annotations, when none raises. */
  ghost predicate CanonicalParts(args: seq<Annot>, ts: seq<Ty>) {
    |ts| == |args| && forall i | 0 <= i < |args| :: CanonOf(args[i]) == Made(ts[i])
  }

  /** A tuple of annotations is their union; it raises when one of them does and
    * accepts what one of them accepts. */
  lemma {:induction false} UnionTupleConforms(es: seq<Annot>, v: Value, isSub: Hierarchy)
    ensures CanonOf(UnionTuple(es)) == CanonOf(Subscript(UnionForm, es))
    ensures CanonOf(UnionTuple(es)).Made? <==> forall i | 0 <= i < |es| :: CanonOf(es[i]).Made?
    ensures CanonOf(UnionTuple(es)).Made? ==>
      CanonOf(UnionTuple(es)).value.Sum? &&
      (Conforms(CanonOf(UnionTuple(es)).value, v, isSub) <==>
        exists i | 0 <= i < |es| :: Conforms(CanonOf(es[i]).value, v, isSub))
  {
    var c := CanonAll(es);
    if c.Made? {
      SumInitConforms(c.value, v, isSub);
    }
  }

  /** `Tuple[t, ...]` is the covariant tuple generic over t; any other use of
    * the ellipsis raises ValueError. */
  lemma TupleEllipsisCanon(args: seq<Annot>)
    requires EllipsisAnnot in args
    ensures (|args| != 2 || args[0] == EllipsisAnnot) ==> CanonOf(Subscript(TupleForm, args)) == Raised(ValueErr)
    ensures CanonOf(Subscript(TupleForm, args)).Made? <==>
      |args| == 2 && args[0] != EllipsisAnnot && args[1] == EllipsisAnnot && CanonOf(args[0]).Made?
    ensures CanonOf(Subscript(TupleForm, args)).Made? ==>
      CanonOf(Subscript(TupleForm, args)).value ==
        Generic(Data(TupleClass), CanonOf(args[0]).value, Covariant, SequenceContainer)
  {
  }

  /** `Tuple[t, ...]` accepts the tuples whose every item conforms to t. */
  lemma TupleEllipsisConforms(x: Annot, v: Value, isSub: Hierarchy)
    requires x != EllipsisAnnot && CanonOf(x).Made? && CanonOf(x).value != PyAny
    requires v.TupleVal? && IsInstance(v, TupleClass, isSub)
    ensures CanonOf(Subscript(TupleForm, [x, EllipsisAnnot])).Made?
    ensures Conforms(CanonOf(Subscript(TupleForm, [x, EllipsisAnnot])).value, v, isSub) <==>
      forall i | 0 <= i < |v.items| :: Conforms(CanonOf(x).value, v.items[i], isSub)
  {
    var t := CanonOf(x).value;
    TupleEllipsisCanon([x, EllipsisAnnot]);
    SequenceConformsIff(Data(TupleClass), t, Covariant, v, isSub);
  }

  /** `Tuple[t1, ..., tn]` without an ellipsis is the product of the parts,
    * of pytypes' `ProductType`, in order and not flattened; it raises when one
    * of them does. */
  lemma {:induction false} TupleProductCanon(args: seq<Annot>)
    requires EllipsisAnnot !in args
    ensures CanonOf(Subscript(TupleForm, args)).Made? <==> forall i | 0 <= i < |args| :: CanonOf(args[i]).Made?
    ensures CanonOf(Subscript(TupleForm, args)).Made? ==>
      CanonOf(Subscript(TupleForm, args)).value.Product? &&
      CanonOf(Subscript(TupleForm, args)).value.layer == Py &&
      CanonicalParts(args, CanonOf(Subscript(TupleForm, args)).value.elems)
  {
    var c := CanonAll(args);
  }

  /** The one-argument forms are the subscription of their bare generic, which
    * has item Any and so accepts every item. */
  lemma SubscriptOneAgrees(f: Form, x: Annot, isSub: Hierarchy)
    requires f.ListForm? || f.SetForm? || f.FrozenSetForm? || f.SequenceForm?
    ensures BareCanon(f).Made? && BareCanon(f).value.Generic?
    ensures CanonOf(Subscript(f, [x])) ==
      if CanonOf(x).Raised? then CanonOf(x) else GenericOf(BareCanon(f).value, CanonOf(x).value, isSub)
  {
    if CanonOf(x).Made? {
      GenericOfAnyItem(BareCanon(f).value, CanonOf(x).value, isSub);
    }
  }

  /** A one-argument form with another number of arguments raises ValueError. */
  lemma SubscriptArity(f: Form, args: seq<Annot>)
    requires f.ListForm? || f.SetForm? || f.FrozenSetForm? || f.SequenceForm?
             || f.DictForm? || f.MappingForm?
    ensures (f.DictForm? || f.MappingForm?) && |args| != 2 ==> CanonOf(Subscript(f, args)) == Raised(ValueErr)
    ensures !(f.DictForm? || f.MappingForm?) && |args| != 1 ==> CanonOf(Subscript(f, args)) == Raised(ValueErr)
  {
  }

  /** `List[x]` accepts the lists whose every element conforms to x. */
  lemma ListConforms(x: Annot, v: Value, isSub: Hierarchy)
    requires CanonOf(x).Made? && CanonOf(x).value != PyAny
    ensures CanonOf(Subscript(ListForm, [x])).Made?
    ensures Conforms(CanonOf(Subscript(ListForm, [x])).value, v, isSub) <==>
      isSub(ClassOf(v), "list") && Elements(v).Some? &&
      forall i | 0 <= i < |Elements(v).value| :: Conforms(CanonOf(x).value, Elements(v).value[i], isSub)
  {
    SequenceConformsIff(Data("list"), CanonOf(x).value, Invariant, v, isSub);
  }

  /** `Dict[k, v]` is the dict generic over the pair of canonical forms; the key
    * is canonicalized first. */
  lemma DictCanon(f: Form, k: Annot, w: Annot)
    requires f.DictForm? || f.MappingForm?
    ensures CanonOf(k).Raised? ==> CanonOf(Subscript(f, [k, w])) == CanonOf(k)
    ensures CanonOf(k).Made? && CanonOf(w).Raised? ==> CanonOf(Subscript(f, [k, w])) == CanonOf(w)
    ensures CanonOf(k).Made? && CanonOf(w).Made? ==>
      CanonOf(Subscript(f, [k, w])) ==
        Made(Generic(BareCanon(f).value.base, Product([CanonOf(k).value, CanonOf(w).value], Py),
                     BareCanon(f).value.variance, DictContainer))
  {
    DictDefaultItem();
  }

  /** `Dict[k, v]` accepts the dicts whose keys conform to k and values to v. */
  lemma DictAnnotConforms(k: Annot, w: Annot, v: Value, isSub: Hierarchy)
    requires CanonOf(k).Made? && CanonOf(w).Made? && v.DictVal?
    ensures CanonOf(Subscript(DictForm, [k, w])).Made?
    ensures Conforms(CanonOf(Subscript(DictForm, [k, w])).value, v, isSub) <==>
      isSub(ClassOf(v), "dict") &&
      forall i | 0 <= i < |v.entries| ::
        Conforms(CanonOf(k).value, v.entries[i].0, isSub) && Conforms(CanonOf(w).value, v.entries[i].1, isSub)
  {
    DictCanon(DictForm, k, w);
    DictConformsIff(Data("dict"), CanonOf(k).value, CanonOf(w).value, Py, Invariant, v, isSub);
  }

  /** A union of annotations whose canonical forms are ts is `SumType(ts)`. */
  lemma UnionOfParts(es: seq<Annot>, ts: seq<Ty>)
    requires CanonicalParts(es, ts)
    ensures CanonOf(Subscript(UnionForm, es)) == Made(SumInit(ts))
    ensures CanonOf(UnionTuple(es)) == Made(SumInit(ts))
  {
    assert CanonAll(es).value == ts;
  }

  /** `Optional[x]` is `Union[x, None]`, the sum of x and the None literal. */
  lemma OptionalCanon(x: Annot)
    requires CanonOf(x).Made?
    ensures CanonOf(Subscript(UnionForm, [x, ClassAnnot(NoneClass)])) ==
      Made(SumInit([CanonOf(x).value, NoneTypeT]))
  {
    var es := [x, ClassAnnot(NoneClass)];
    assert CanonicalParts(es, [CanonOf(x).value, NoneTypeT]) by {
      assert CastMapping(es[1]) == Some(NoneTypeT);
    }
    UnionOfParts(es, [CanonOf(x).value, NoneTypeT]);
  }

  /** An optional type accepts None and what its type accepts. */
  lemma OptionalConforms(t: Ty, v: Value, isSub: Hierarchy)
    ensures Conforms(SumInit([t, NoneTypeT]), v, isSub) <==> v == NoneVal || Conforms(t, v, isSub)
  {
    SumInitConforms([t, NoneTypeT], v, isSub);
    NoneConformsIff(v, isSub);
    var ts := [t, NoneTypeT];
    assert (exists i | 0 <= i < |ts| :: Conforms(ts[i], v, isSub)) <==>
      Conforms(ts[0], v, isSub) || Conforms(ts[1], v, isSub);
  }

  /** `NoneType` accepts None and nothing else. */
  lemma NoneConformsIff(v: Value, isSub: Hierarchy)
    ensures Conforms(NoneTypeT, v, isSub) <==> v == NoneVal
  {
    assert IsIn(v, [NoneVal]) <==> PyEq([NoneVal][0], v);
  }

  /** As written, a product of either layer is not below Tuple; Tuple is above
    * the products of `Tuple[...]` but not above those of `*`; and
    * `Tuple[t, ...]` is not below Tuple either. */
  lemma ProductNotBelowTuple(ts: seq<Ty>, l: Layer, x: Ty, isSub: Hierarchy)
    ensures Le(Product(ts, l), Tuple, isSub) == Ok(false)
    ensures Ge(Tuple, Product(ts, l), isSub) == Ok(l == Py)
    ensures Le(Generic(Data(TupleClass), x, Covariant, SequenceContainer), Tuple, isSub) == Ok(false)
  {
    TupleRelations(Product(ts, l), isSub);
    assert Chosen(Product(ts, l), Tuple) == Fallback;
    GenericLeftLe(Generic(Data(TupleClass), x, Covariant, SequenceContainer), Tuple, isSub);
  }
}
