/**
 * Runtime values of the host language, as the conformance test sees them.
 *
 * Every value carries the name of its class (its kernel); the class hierarchy
 * itself is not modelled concretely: it is the parameter `isSub`, Python's
 * `issubclass` on kernels, supplied by the caller of every operation that
 * needs it.
 */
module Values {

  /** The name of a host-language class (`int`, `list`, a user class, ...). */
  type Kernel = string

  /** Python's `issubclass` on kernels. */
  type Hierarchy = (Kernel, Kernel) -> bool

  const TupleClass: Kernel := "tuple"
  const NoneClass: Kernel := "NoneType"
  const StrClass: Kernel := "str"

  /** A runtime value; containers hold their elements in iteration order. */
  datatype Value =
    | IntVal(cls: Kernel, n: int)                      // an int-like instance (int, bool, an int subclass)
    | StrVal(cls: Kernel, s: string)                   // a str-like instance
    | ObjVal(cls: Kernel, id: nat)                     // any other instance, known only by its class
    | TupleVal(cls: Kernel, items: seq<Value>)         // a tuple-like instance (tuple, a namedtuple, ...)
    | SeqVal(cls: Kernel, items: seq<Value>)           // a list, set, frozenset or other iterable
    | DictVal(cls: Kernel, entries: seq<(Value, Value)>) // a dict-like mapping, in item order
    | NoneVal                                          // None

  /** `type(v)` */
  function ClassOf(v: Value): (k: Kernel)
    ensures v.NoneVal? ==> k == NoneClass
    ensures !v.NoneVal? ==> k == v.cls
  {
    match v
    case IntVal(c, _) => c
    case StrVal(c, _) => c
    case ObjVal(c, _) => c
    case TupleVal(c, _) => c
    case SeqVal(c, _) => c
    case DictVal(c, _) => c
    case NoneVal => NoneClass
  }

  /** `isinstance(v, k)` on a kernel */
  predicate IsInstance(v: Value, k: Kernel, isSub: Hierarchy) {
    isSub(ClassOf(v), k)
  }

  /** What `for x in v` iterates over, or None when `v` is not iterable. */
  function Elements(v: Value): (r: Option<seq<Value>>)
    ensures v.SeqVal? ==> r == Some(v.items)
    ensures v.TupleVal? ==> r == Some(v.items)
    ensures v.DictVal? ==> r.Some? && |r.value| == |v.entries|
    ensures v.StrVal? ==> r.Some? && |r.value| == |v.s|
    ensures r.None? <==> (v.IntVal? || v.ObjVal? || v.NoneVal?)
  {
    match v
    case SeqVal(_, items) => Some(items)
    case TupleVal(_, items) => Some(items)
    case DictVal(_, entries) => Some(seq(|entries|, i requires 0 <= i < |entries| => entries[i].0))
    case StrVal(_, s) => Some(seq(|s|, i requires 0 <= i < |s| => StrVal(StrClass, [s[i]])))
    case _ => None
  }

  /** `len(v)`, or None when the value has no length. */
  function Len(v: Value): (r: Option<int>)
    ensures r.Some? ==> r.value >= 0
    ensures r.None? <==> (v.IntVal? || v.ObjVal? || v.NoneVal?)
  {
    match v
    case StrVal(_, s) => Some(|s|)
    case TupleVal(_, items) => Some(|items|)
    case SeqVal(_, items) => Some(|items|)
    case DictVal(_, entries) => Some(|entries|)
    case _ => None
  }

  /** Python's `==` on values: an int-like instance equals any int-like
    * instance with the same number (`True == 1`), a str-like one any str with
    * the same characters, and tuple-like instances of any classes compare
    * element by element. Other values compare structurally. */
  predicate PyEq(v: Value, w: Value) {
    match (v, w)
    case (IntVal(_, m), IntVal(_, n)) => m == n
    case (StrVal(_, s), StrVal(_, t)) => s == t
    case (TupleVal(_, xs), TupleVal(_, ys)) =>
      |xs| == |ys| && forall i | 0 <= i < |xs| :: PyEq(xs[i], ys[i])
    case _ => v == w
  }

  /** `v in vs` on a Python sequence: some element equals `v`. */
  predicate IsIn(v: Value, vs: seq<Value>) {
    exists i | 0 <= i < |vs| :: PyEq(vs[i], v)
  }

  lemma IsInConcat(v: Value, vs: seq<Value>, ws: seq<Value>)
    ensures IsIn(v, vs + ws) <==> IsIn(v, vs) || IsIn(v, ws)
  {
    if IsIn(v, vs + ws) {
      var i :| 0 <= i < |vs + ws| && PyEq((vs + ws)[i], v);
      if i >= |vs| {
        assert (vs + ws)[i] == ws[i - |vs|];
      }
    }
    if IsIn(v, ws) {
      var j :| 0 <= j < |ws| && PyEq(ws[j], v);
      assert (vs + ws)[|vs| + j] == ws[j];
    }
    if IsIn(v, vs) {
      var j :| 0 <= j < |vs| && PyEq(vs[j], v);
      assert (vs + ws)[j] == vs[j];
    }
  }

  /** `set(vs) <= set(ws)`: every element of `vs` is equal to one of `ws`. */
  predicate SubsetOf(vs: seq<Value>, ws: seq<Value>) {
    forall i | 0 <= i < |vs| :: IsIn(vs[i], ws)
  }

  /** A value whose ints are of class `int`, whose strings of class `str` and whose
    * tuples of class `tuple`, at every depth; on it Python's `==` is structural equality. */
  predicate Plain(v: Value) {
    match v
    case IntVal(c, _) => c == "int"
    case StrVal(c, _) => c == StrClass
    case TupleVal(c, xs) => c == TupleClass && forall i | 0 <= i < |xs| :: Plain(xs[i])
    case SeqVal(_, xs) => forall i | 0 <= i < |xs| :: Plain(xs[i])
    case DictVal(_, es) => forall i | 0 <= i < |es| :: Plain(es[i].0) && Plain(es[i].1)
    case _ => true
  }

  /** What a plain value iterates over is plain too. */
  lemma PlainElements(v: Value)
    requires Plain(v) && Elements(v).Some?
    ensures forall i | 0 <= i < |Elements(v).value| :: Plain(Elements(v).value[i])
  {
  }

  lemma {:induction false} PyEqReflexive(v: Value)
    ensures PyEq(v, v)
  {
    if v.TupleVal? {
      forall i | 0 <= i < |v.items| ensures PyEq(v.items[i], v.items[i]) {
        PyEqReflexive(v.items[i]);
      }
    }
  }

  lemma {:induction false} PyEqSymmetric(v: Value, w: Value)
    requires PyEq(v, w)
    ensures PyEq(w, v)
  {
    if v.TupleVal? && w.TupleVal? {
      forall i | 0 <= i < |w.items| ensures PyEq(w.items[i], v.items[i]) {
        PyEqSymmetric(v.items[i], w.items[i]);
      }
    }
  }

  lemma {:induction false} PyEqTransitive(u: Value, v: Value, w: Value)
    requires PyEq(u, v) && PyEq(v, w)
    ensures PyEq(u, w)
  {
    if u.TupleVal? && v.TupleVal? && w.TupleVal? {
      forall i | 0 <= i < |u.items| ensures PyEq(u.items[i], w.items[i]) {
        PyEqTransitive(u.items[i], v.items[i], w.items[i]);
      }
    }
  }

  /** On plain values Python's `==` is structural equality. */
  lemma {:induction false} PlainEq(v: Value, w: Value)
    requires Plain(v) && Plain(w)
    ensures PyEq(v, w) <==> v == w
  {
    if PyEq(v, w) && v.TupleVal? && w.TupleVal? {
      forall i | 0 <= i < |v.items| ensures v.items[i] == w.items[i] {
        PlainEq(v.items[i], w.items[i]);
      }
      assert v.items == w.items;
    } else if v == w {
      PyEqReflexive(v);
    }
  }

  /** `True == 1`: an instance of a subclass of int equals a plain int. */
  lemma BoolEqualsInt()
    ensures PyEq(IntVal("bool", 1), IntVal("int", 1))
    ensures IntVal("bool", 1) != IntVal("int", 1)
  {
  }

  datatype Option<+T> = None | Some(value: T)

  ghost predicate Reflexive(isSub: Hierarchy) {
    forall k :: isSub(k, k)
  }

  ghost predicate Transitive(isSub: Hierarchy) {
    forall k1, k2, k3 :: isSub(k1, k2) && isSub(k2, k3) ==> isSub(k1, k3)
  }
}
