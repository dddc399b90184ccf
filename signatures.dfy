/**
 * `get_func_signatures`: the family of type signatures one function is
 * registered under, one per number of arguments it can be called with.
 */
module Signatures {
  import opened Values
  import opened TypeSystems

  /** A declared parameter: its annotation, if any, and whether it has a default. */
  datatype Param<A> = Param(annotation: Option<A>, hasDefault: bool)

  /** The dispatch type of one parameter. */
  function ParamType<A, T, V>(ts: TypeSystem<A, T, V>, p: Param<A>): T {
    if p.annotation.None? then ts.defaultType else ts.canonize(p.annotation.value)
  }

  /** The signature of a call that passes every parameter. */
  function FullSignature<A, T, V>(ts: TypeSystem<A, T, V>, params: seq<Param<A>>): seq<T> {
    seq(|params|, i requires 0 <= i < |params| => ParamType(ts, params[i]))
  }

  /** The signatures that stop before a defaulted parameter among the first n. */
  function DefaultPrefixes<A, T>(full: seq<T>, params: seq<Param<A>>, n: nat): seq<seq<T>>
    requires n <= |params| == |full|
  {
    if n == 0 then []
    else DefaultPrefixes(full, params, n - 1) + (if params[n - 1].hasDefault then [full[..n - 1]] else [])
  }

  /** The specification of `get_func_signatures`. */
  function SignaturesOf<A, T, V>(ts: TypeSystem<A, T, V>, params: seq<Param<A>>): seq<seq<T>> {
    var full := FullSignature(ts, params);
    DefaultPrefixes(full, params, |params|) + [full]
  }

  function CountDefaults<A>(params: seq<Param<A>>, n: nat): nat
    requires n <= |params|
  {
    if n == 0 then 0 else CountDefaults(params, n - 1) + (if params[n - 1].hasDefault then 1 else 0)
  }

  method GetFuncSignatures<A, T, V>(ts: TypeSystem<A, T, V>, params: seq<Param<A>>) returns (typesigs: seq<seq<T>>)
    ensures typesigs == SignaturesOf(ts, params)
  {
    ghost var full := FullSignature(ts, params);
    typesigs := [];
    var typesig: seq<T> := [];
    for i := 0 to |params|
      invariant typesig == full[..i]
      invariant typesigs == DefaultPrefixes(full, params, i)
    {
      var p := params[i];
      var t := if p.annotation.None? then ts.defaultType else ts.canonize(p.annotation.value);
      if p.hasDefault {
        // from here on every parameter is optional
        typesigs := typesigs + [typesig];
      }
      typesig := typesig + [t];
      assert typesig == full[..i + 1];
    }
    assert typesig == full;
    typesigs := typesigs + [typesig];
  }

  /** The prefixes stop exactly at the defaulted parameters, in increasing length. */
  lemma {:induction false} DefaultPrefixesShape<A, T>(full: seq<T>, params: seq<Param<A>>, n: nat)
    requires n <= |params| == |full|
    ensures |DefaultPrefixes(full, params, n)| == CountDefaults(params, n)
    ensures forall j | 0 <= j < |DefaultPrefixes(full, params, n)| ::
      var s := DefaultPrefixes(full, params, n)[j];
      |s| < n && s == full[..|s|] && params[|s|].hasDefault
    ensures forall j | 0 <= j < |DefaultPrefixes(full, params, n)| - 1 ::
      |DefaultPrefixes(full, params, n)[j]| < |DefaultPrefixes(full, params, n)[j + 1]|
    ensures forall k | 0 <= k < n && params[k].hasDefault :: full[..k] in DefaultPrefixes(full, params, n)
  {
    if n > 0 {
      DefaultPrefixesShape(full, params, n - 1);
    }
  }

  /** `1 + #defaults` signatures, each a strict prefix of the next, the full
    * signature last; a prefix of the full signature is among them exactly when
    * it stops before a defaulted parameter or is the full signature. */
  lemma SignatureFamily<A, T, V>(ts: TypeSystem<A, T, V>, params: seq<Param<A>>)
    ensures var sigs := SignaturesOf(ts, params);
      |sigs| == 1 + CountDefaults(params, |params|) &&
      sigs[|sigs| - 1] == FullSignature(ts, params) &&
      (forall j | 0 <= j < |sigs| - 1 :: |sigs[j]| < |sigs[j + 1]| && sigs[j] == sigs[j + 1][..|sigs[j]|]) &&
      (forall k | 0 <= k <= |params| ::
        FullSignature(ts, params)[..k] in sigs <==> k == |params| || params[k].hasDefault)
  {
    var full := FullSignature(ts, params);
    var ps := DefaultPrefixes(full, params, |params|);
    DefaultPrefixesShape(full, params, |params|);
    var sigs := ps + [full];
    forall j | 0 <= j < |sigs| - 1
      ensures |sigs[j]| < |sigs[j + 1]| && sigs[j] == sigs[j + 1][..|sigs[j]|]
    {
      assert sigs[j] == ps[j];
      if j + 1 < |ps| {
        assert sigs[j + 1] == ps[j + 1];
      }
    }
    forall k | 0 <= k <= |params| && (k == |params| || params[k].hasDefault)
      ensures full[..k] in sigs
    {
      if k == |params| {
        assert full[..k] == full == sigs[|ps|];
      } else {
        assert full[..k] in ps;
      }
    }
    forall k | 0 <= k <= |params| && full[..k] in sigs
      ensures k == |params| || params[k].hasDefault
    {
      if k < |params| {
        var j :| 0 <= j < |sigs| && sigs[j] == full[..k];
        if j < |ps| {
          assert ps[j] == full[..k];
        }
      }
    }
  }

  /** `f(x: int = 2, y: int = 2)` is registered for zero, one and two arguments. */
  lemma TwoDefaultsExample<A, T, V>(ts: TypeSystem<A, T, V>, intA: A)
    ensures SignaturesOf(ts, [Param(Some(intA), true), Param(Some(intA), true)]) ==
      [[], [ts.canonize(intA)], [ts.canonize(intA), ts.canonize(intA)]]
  {
    var params := [Param(Some(intA), true), Param(Some(intA), true)];
    var full := FullSignature(ts, params);
    assert full == [ts.canonize(intA), ts.canonize(intA)];
    assert DefaultPrefixes(full, params, 1) == [[]];
    assert full[..1] == [ts.canonize(intA)];
  }
}
