/**
 * Evaluation of STypes: substituting inferred symbols, then reducing every shape-function call,
 * innermost first, through the registry's table; and `getGeneralSType`, which forgets everything
 * but the rank and the numbers of a value.
 */
module Evaluator {
  import opened Wrappers
  import opened STypes
  import opened STypeUtils
  import opened Generics
  import opened ShapeFunctionRegistry
  import DimArithmetic
  import Matmul

  /** A snapshot of the registry's table; evaluation only reads it. */
  type Table = map<string, Extension>

  function UnresolvedMessage(name: string): string
  {
    "Shape function " + name + " could not be resolved."
  }

  /** The `as Shape?` cast on the result of `apply`: null stays null, a dim fails. */
  function AsShape(v: Option<SType>): (r: Result<Option<SType>>)
    ensures r.Ok? <==> v.None? || IsShape(v.value)
    ensures r.Ok? ==> r.value == v
  {
    match v
    case None => Ok(None)
    case Some(s) => if IsShape(s) then Ok(v) else Fail(CastFailure(s, "Shape"))
  }

  /**
   * `evaluateShapeFunctionCall`: an unknown name gives an ErrorUnknownClass; otherwise the implementation
   * is applied to the arguments, a null result stands for the call itself, and an error on the result is
   * re-raised as an error of this call.
   */
  function EvaluateShapeFunctionCall(exts: Table, call: SType): (r: Result<SType>)
    requires call.ShapeFunctionCall?
    ensures r.Ok? ==> IsShape(r.value) || r.value.ErrorUnknownClass?
  {
    if call.name !in exts then Ok(ErrorUnknownClass(ShapeFunctionResolutionError(UnresolvedMessage(call.name))))
    else
      var out :- Apply(exts[call.name].impl, call.args);
      var shape :- AsShape(out);
      var evaled := if shape.None? then call else shape.value;
      match Error(evaled)
      case Some(e) => Ok(WithException(evaled, STypeFunctionError(e, call)))
      case None => Ok(evaled)
  }

  /** The failure reported when the evaluation depth runs out (the source recurses until the stack overflows). */
  const DepthExceeded: Thrown := Thrown("StackOverflowError", "")

  /** The substitution step: only a value with symbols, and only with a non-empty map, is substituted. */
  function Substituted(m: Substitutions, t: SType): (r: Result<SType>)
    requires Acyclic(m)
    ensures !ContainsSymbols(t) || |m| == 0 ==> r == Ok(t)
    ensures ContainsSymbols(t) && |m| > 0 ==> r == Substitute(m, t)
  {
    if ContainsSymbols(t) && |m| > 0 then Substitute(m, t) else Ok(t)
  }

  /**
   * `evaluateSType`: substitute, then evaluate a call's arguments (with the same map) before applying the
   * call, evaluate a tuple elementwise, and return anything else as it stands. The recursion is bounded
   * by `fuel`; it is unbounded in the source because a substituted symbol can bring in a call again.
   */
  function EvaluateSType(exts: Table, m: Substitutions, t: SType, fuel: nat): (r: Result<SType>)
    requires Acyclic(m)
    decreases fuel, 0, 0
  {
    if fuel == 0 then Fail(DepthExceeded)
    else
      var s :- Substituted(m, t);
      match s
      case ShapeFunctionCall(name, args, _) =>
        var args' :- EvaluateAll(exts, m, args, fuel - 1);
        EvaluateShapeFunctionCall(exts, ShapeFunctionCall(name, args', None))
      case STypeTuple(ts, e) =>
        var ts' :- EvaluateAll(exts, m, ts, fuel - 1);
        Ok(STypeTuple(ts', e))
      case _ => Ok(s)
  }

  /** `map { evaluateSType(it, substitutions) }`: the first failure, in order, is the result. */
  function EvaluateAll(exts: Table, m: Substitutions, ts: seq<SType>, fuel: nat): (r: Result<seq<SType>>)
    requires Acyclic(m)
    ensures r.Ok? ==> |r.value| == |ts| && forall i :: 0 <= i < |ts| ==> EvaluateSType(exts, m, ts[i], fuel) == Ok(r.value[i])
    ensures r.Fail? ==> exists i :: 0 <= i < |ts| && EvaluateSType(exts, m, ts[i], fuel) == Fail(r.thrown)
    decreases fuel, 1, |ts|
  {
    if ts == [] then Ok([])
    else
      var x :- EvaluateSType(exts, m, ts[0], fuel);
      var rest :- EvaluateAll(exts, m, ts[1..], fuel);
      assert forall i :: 1 <= i < |ts| ==> ts[i] == ts[1..][i - 1];
      Ok([x] + rest)
  }

  /** `getGeneralSType`: dim shapes keep their rank and numbers; every other dim and shape becomes the wildcard. */
  function GetGeneralSType(t: SType): (r: SType)
    requires WellKinded(t)
    ensures IsDim(t) ==> IsDim(r)
    ensures IsShape(t) ==> IsShape(r)
    ensures WellKinded(r)
    decreases t, 1
  {
    match t
    case DimShape(ds, _) => DimShape(GeneralAll(ds), None)
    case NumericDim(_, _) => t
    case STypeTuple(ts, _) => STypeTuple(GeneralAll(ts), None)
    case ErrorUnknownClass(_) => t
    case _ => if IsShape(t) then DefaultWildcardShape else DefaultWildcardDim
  }

  function GeneralAll(ts: seq<SType>): (r: seq<SType>)
    requires forall i :: 0 <= i < |ts| ==> WellKinded(ts[i])
    ensures |r| == |ts|
    ensures forall i :: 0 <= i < |ts| ==> r[i] == GetGeneralSType(ts[i])
    decreases ts, 0
  {
    if ts == [] then [] else [GetGeneralSType(ts[0])] + GeneralAll(ts[1..])
  }

  // ---------------------------------------------------------------------------------------------
  // Properties of `evaluateShapeFunctionCall`

  /**
   * The outcomes of one call: an unknown name resolves to an error value; a failing `apply` or cast fails
   * the evaluation; a null result gives back the call (re-raising its own error); any error of the result is
   * re-raised with the same message and level and the call recorded; an error-free result is returned as is.
   */
  lemma CallOutcomes(exts: Table, call: SType)
    requires call.ShapeFunctionCall?
    ensures call.name !in exts ==>
      EvaluateShapeFunctionCall(exts, call) == Ok(ErrorUnknownClass(ShapeFunctionResolutionError(UnresolvedMessage(call.name))))
    ensures call.name in exts ==>
      var out := Apply(exts[call.name].impl, call.args);
      var r := EvaluateShapeFunctionCall(exts, call);
      && (out.Fail? ==> r == Fail(out.thrown))
      && (out.Ok? && out.value.Some? && !IsShape(out.value.value) ==> r == Fail(CastFailure(out.value.value, "Shape")))
      && (out == Ok(None) && Error(call).None? ==> r == Ok(call))
      && (out.Ok? && out.value.Some? && IsShape(out.value.value) && Error(out.value.value).None? ==> r == Ok(out.value.value))
      && (out.Ok? && out.value.Some? && IsShape(out.value.value) && Error(out.value.value).Some? ==>
            r.Ok? && IsShape(r.value) && (!out.value.value.ErrorShape? ==> SEq(r.value, out.value.value)) &&
            Error(r.value).Some? && Error(r.value).value.message == Error(out.value.value).value.message &&
            Level(Error(r.value).value) == Level(Error(out.value.value).value) &&
            Error(r.value).value.kind == FunctionError(Level(Error(out.value.value).value), call))
  {
    if call.name in exts {
      var out := Apply(exts[call.name].impl, call.args);
      if out.Ok? && out.value.Some? && IsShape(out.value.value) {
        var v := out.value.value;
        if Error(v).Some? && !v.ErrorShape? {
          WithExceptionKeepsEquality(v, STypeFunctionError(Error(v).value, call));
        }
      }
    }
  }

  /** `plus` and `times` return dims, so calling them through the evaluator fails the `as Shape` cast whenever they reduce. */
  lemma DimFunctionsFailTheCast(exts: Table, call: SType)
    requires call.ShapeFunctionCall? && call.name in exts && ReturnType(exts[call.name].impl) == DimKind
    requires Apply(exts[call.name].impl, call.args).Ok? && Apply(exts[call.name].impl, call.args).value.Some?
    ensures EvaluateShapeFunctionCall(exts, call).Fail?
    ensures EvaluateShapeFunctionCall(exts, call).thrown.exceptionClass == "ClassCastException"
  {
    ApplyReturnsItsKind(exts[call.name].impl, call.args);
  }

  /** A shape function that applies always yields a shape value through the evaluator. */
  lemma ShapeFunctionsYieldShapes(exts: Table, call: SType)
    requires call.ShapeFunctionCall? && call.name in exts && ReturnType(exts[call.name].impl) == ShapeKind
    requires Apply(exts[call.name].impl, call.args).Ok?
    ensures EvaluateShapeFunctionCall(exts, call).Ok? && IsShape(EvaluateShapeFunctionCall(exts, call).value)
  {
    var out := Apply(exts[call.name].impl, call.args);
    if out.value.Some? {
      ApplyReturnsItsKind(exts[call.name].impl, call.args);
    }
  }

  // ---------------------------------------------------------------------------------------------
  // Properties of `evaluateSType`

  /** How deeply calls and tuples nest: the fuel that evaluating a value without substitution needs. */
  function Height(t: SType): (h: nat)
    ensures h >= 1
    decreases t, 1
  {
    match t
    case ShapeFunctionCall(_, args, _) => 1 + MaxHeight(args)
    case STypeTuple(ts, _) => 1 + MaxHeight(ts)
    case _ => 1
  }

  function MaxHeight(ts: seq<SType>): (h: nat)
    ensures forall i :: 0 <= i < |ts| ==> Height(ts[i]) <= h
    decreases ts, 0
  {
    if ts == [] then 0
    else
      var rest := MaxHeight(ts[1..]);
      assert forall i :: 1 <= i < |ts| ==> ts[i] == ts[1..][i - 1];
      if Height(ts[0]) > rest then Height(ts[0]) else rest
  }

  /** With an empty map, a value that contains no calls evaluates to itself (given the depth its tuples need). */
  lemma {:induction false} CallFreeIsUnchanged(exts: Table, t: SType, fuel: nat)
    requires !ContainsShapeFunctionCalls(t) && fuel >= Height(t)
    ensures EvaluateSType(exts, map[], t, fuel) == Ok(t)
    decreases t, 1
  {
    if t.STypeTuple? {
      forall i | 0 <= i < |t.types|
        ensures !ContainsShapeFunctionCalls(t.types[i])
      {
      }
      CallFreeAllUnchanged(exts, t.types, fuel - 1);
    }
    EmptyMapStep(exts, t, fuel);
  }

  /** One step of evaluation with an empty map, for a value that is not a call. */
  lemma EmptyMapStep(exts: Table, t: SType, fuel: nat)
    requires fuel > 0 && !t.ShapeFunctionCall?
    requires t.STypeTuple? ==> EvaluateAll(exts, map[], t.types, fuel - 1) == Ok(t.types)
    ensures EvaluateSType(exts, map[], t, fuel) == Ok(t)
  {
    assert Substituted(map[], t) == Ok(t);
  }

  lemma {:induction false} CallFreeAllUnchanged(exts: Table, ts: seq<SType>, fuel: nat)
    requires forall i :: 0 <= i < |ts| ==> !ContainsShapeFunctionCalls(ts[i]) && fuel >= Height(ts[i])
    ensures EvaluateAll(exts, map[], ts, fuel) == Ok(ts)
    decreases ts, 0
  {
    if ts != [] {
      CallFreeIsUnchanged(exts, ts[0], fuel);
      CallFreeAllUnchanged(exts, ts[1..], fuel);
      assert [ts[0]] + ts[1..] == ts;
    }
  }

  /** The map only matters through symbols: a symbol-free value evaluates the same with any map. */
  lemma {:induction false} SymbolFreeIgnoresMap(exts: Table, m: Substitutions, t: SType, fuel: nat)
    requires Acyclic(m) && !ContainsSymbols(t)
    ensures EvaluateSType(exts, m, t, fuel) == EvaluateSType(exts, map[], t, fuel)
    decreases fuel, 0, 0
  {
    if fuel > 0 {
      assert Acyclic(map[]);
      var ts := Children(t);
      ContainsSymbolsIff(t);
      SymbolFreeAllIgnoreMap(exts, m, ts, fuel - 1);
      SymbolFreeStep(exts, m, t, ts, fuel);
    }
  }

  /** One step of `SymbolFreeIgnoresMap`: with the children evaluating alike, so does `t`. */
  lemma SymbolFreeStep(exts: Table, m: Substitutions, t: SType, ts: seq<SType>, fuel: nat)
    requires Acyclic(m) && Acyclic(map[]) && !ContainsSymbols(t) && fuel > 0
    requires t.ShapeFunctionCall? ==> ts == t.args
    requires t.STypeTuple? ==> ts == t.types
    requires EvaluateAll(exts, m, ts, fuel - 1) == EvaluateAll(exts, map[], ts, fuel - 1)
    ensures EvaluateSType(exts, m, t, fuel) == EvaluateSType(exts, map[], t, fuel)
  {
    assert Substituted(m, t) == Ok(t) && Substituted(map[], t) == Ok(t);
  }

  lemma {:induction false} SymbolFreeAllIgnoreMap(exts: Table, m: Substitutions, ts: seq<SType>, fuel: nat)
    requires Acyclic(m) && forall i :: 0 <= i < |ts| ==> !ContainsSymbols(ts[i])
    ensures Acyclic(map[]) && EvaluateAll(exts, m, ts, fuel) == EvaluateAll(exts, map[], ts, fuel)
    decreases fuel, 1, |ts|
  {
    assert Acyclic(map[]);
    if ts != [] {
      SymbolFreeIgnoresMap(exts, m, ts[0], fuel);
      SymbolFreeAllIgnoreMap(exts, m, ts[1..], fuel);
    }
  }

  /** A tuple evaluates to a tuple of the same length, keeping its error. */
  lemma TupleShape(exts: Table, m: Substitutions, t: SType, fuel: nat)
    requires Acyclic(m) && t.STypeTuple?
    requires EvaluateSType(exts, m, t, fuel).Ok?
    ensures var r := EvaluateSType(exts, m, t, fuel).value;
      r.STypeTuple? && |r.types| == |t.types| && (!ContainsSymbols(t) || |m| == 0 ==> r.err == t.err)
  {
  }

  /** A call evaluates to a shape or to an unknown-function error, or the evaluation fails. */
  lemma CallsEvaluateToShapes(exts: Table, m: Substitutions, t: SType, fuel: nat)
    requires Acyclic(m) && t.ShapeFunctionCall?
    requires EvaluateSType(exts, m, t, fuel).Ok?
    ensures IsShape(EvaluateSType(exts, m, t, fuel).value) || EvaluateSType(exts, m, t, fuel).value.ErrorUnknownClass?
  {
  }

  // ---------------------------------------------------------------------------------------------
  // Properties of `getGeneralSType`

  /** Dim shapes keep their rank and numeric dims; other dims widen to `Dim`; other shapes to `Shape`. */
  lemma GeneralForms(t: SType)
    requires WellKinded(t)
    ensures t.DimShape? ==> var r := GetGeneralSType(t);
      r.DimShape? && r.err.None? && |r.dims| == |t.dims| &&
      forall i :: 0 <= i < |t.dims| ==>
        (t.dims[i].NumericDim? ==> r.dims[i] == t.dims[i]) && (!t.dims[i].NumericDim? ==> r.dims[i] == DefaultWildcardDim)
    ensures IsShape(t) && !t.DimShape? ==> GetGeneralSType(t) == DefaultWildcardShape
    ensures IsDim(t) && !t.NumericDim? ==> GetGeneralSType(t) == DefaultWildcardDim
    ensures t.NumericDim? ==> GetGeneralSType(t) == t
    ensures t.STypeTuple? ==> GetGeneralSType(t).STypeTuple? && |GetGeneralSType(t).types| == |t.types|
  {
  }

  /** The general form contains no symbols, no calls, and is its own general form. */
  lemma GeneralIsGeneral(t: SType)
    requires WellKinded(t)
    ensures !ContainsSymbols(GetGeneralSType(t))
    ensures !ContainsShapeFunctionCalls(GetGeneralSType(t))
    ensures GetGeneralSType(GetGeneralSType(t)) == GetGeneralSType(t)
  {
    GeneralIsPlain(t);
    GeneralIsFixed(t);
  }

  lemma {:induction false} GeneralIsPlain(t: SType)
    requires WellKinded(t)
    ensures !ContainsSymbols(GetGeneralSType(t)) && !ContainsShapeFunctionCalls(GetGeneralSType(t))
    decreases t, 1
  {
    match t
    case DimShape(ds, _) => GeneralAllArePlain(ds);
    case STypeTuple(ts, _) => GeneralAllArePlain(ts);
    case _ =>
  }

  lemma {:induction false} GeneralAllArePlain(ts: seq<SType>)
    requires forall i :: 0 <= i < |ts| ==> WellKinded(ts[i])
    ensures forall i :: 0 <= i < |ts| ==> !ContainsSymbols(GeneralAll(ts)[i]) && !ContainsShapeFunctionCalls(GeneralAll(ts)[i])
    decreases ts, 0
  {
    if ts != [] {
      GeneralIsPlain(ts[0]);
      GeneralAllArePlain(ts[1..]);
    }
  }

  lemma {:induction false} GeneralIsFixed(t: SType)
    requires WellKinded(t)
    ensures GetGeneralSType(GetGeneralSType(t)) == GetGeneralSType(t)
    decreases t, 1
  {
    match t
    case DimShape(ds, _) => GeneralAllAreFixed(ds);
    case STypeTuple(ts, _) => GeneralAllAreFixed(ts);
    case _ =>
  }

  lemma {:induction false} GeneralAllAreFixed(ts: seq<SType>)
    requires forall i :: 0 <= i < |ts| ==> WellKinded(ts[i])
    ensures GeneralAll(GeneralAll(ts)) == GeneralAll(ts)
    decreases ts, 0
  {
    if ts != [] {
      GeneralIsFixed(ts[0]);
      GeneralAllAreFixed(ts[1..]);
    }
  }

  // ---------------------------------------------------------------------------------------------
  // Examples, with the table of the built-ins

  function Num(v: int): SType
  {
    NumericDim(v, None)
  }

  /** The built-in table files `f` under its name. */
  lemma BuiltinLookup(f: Builtin)
    ensures Name(f) in TableOf(|AllBuiltins|) && TableOf(|AllBuiltins|)[Name(f)].impl == f
  {
    TableOfContents(|AllBuiltins|);
    AllBuiltinsListed(f);
  }

  lemma NumbersAreCallFree(ds: seq<SType>)
    requires forall i :: 0 <= i < |ds| ==> ds[i].NumericDim?
    ensures !ContainsShapeFunctionCalls(DimShape(ds, None))
  {
    assert forall i :: 0 <= i < |ds| ==> !ContainsShapeFunctionCalls(ds[i]);
  }

  /** With an empty map, a call whose arguments hold no calls is applied to its arguments as they are. */
  lemma FlatCall(exts: Table, name: string, args: seq<SType>)
    requires forall i :: 0 <= i < |args| ==> !ContainsShapeFunctionCalls(args[i]) && Height(args[i]) <= 1
    ensures Acyclic(map[])
    ensures EvaluateSType(exts, map[], ShapeFunctionCall(name, args, None), 2) == EvaluateShapeFunctionCall(exts, ShapeFunctionCall(name, args, None))
  {
    assert Acyclic(map[]);
    CallFreeAllUnchanged(exts, args, 1);
  }

  /** A registered function whose `apply` returns an error-free shape evaluates to that shape. */
  lemma ReducedCall(exts: Table, call: SType, v: SType)
    requires call.ShapeFunctionCall? && call.name in exts
    requires Apply(exts[call.name].impl, call.args) == Ok(Some(v)) && IsShape(v) && Error(v).None?
    ensures EvaluateShapeFunctionCall(exts, call) == Ok(v)
  {
  }

  /** `matmul([m,k],[k,n])` evaluates to `[m,n]`. */
  lemma MatmulThroughEvaluator(m: int, k: int, n: int)
    ensures var a, b := DimShape([Num(m), Num(k)], None), DimShape([Num(k), Num(n)], None);
      EvaluateSType(TableOf(|AllBuiltins|), map[], ShapeFunctionCall("matmul", [a, b], None), 2) == Ok(DimShape([Num(m), Num(n)], None))
  {
    var a, b := DimShape([Num(m), Num(k)], None), DimShape([Num(k), Num(n)], None);
    NumbersAreCallFree([Num(m), Num(k)]);
    NumbersAreCallFree([Num(k), Num(n)]);
    FlatCall(TableOf(|AllBuiltins|), "matmul", [a, b]);
    BuiltinLookup(MatmulFn);
    MatmulApplied(m, k, n);
    ReducedCall(TableOf(|AllBuiltins|), ShapeFunctionCall("matmul", [a, b], None), DimShape([Num(m), Num(n)], None));
  }

  lemma MatmulApplied(m: int, k: int, n: int)
    ensures Apply(MatmulFn, [DimShape([Num(m), Num(k)], None), DimShape([Num(k), Num(n)], None)]) == Ok(Some(DimShape([Num(m), Num(n)], None)))
  {
    var a, b := DimShape([Num(m), Num(k)], None), DimShape([Num(k), Num(n)], None);
    assert WellKinded(a) && WellKinded(b) by {
      assert forall i :: 0 <= i < 2 ==> a.dims[i] == Num(m) || a.dims[i] == Num(k);
      assert forall i :: 0 <= i < 2 ==> b.dims[i] == Num(k) || b.dims[i] == Num(n);
    }
    assert CastsSucceed(Parameters(MatmulFn), [a, b]);
    assert Apply(MatmulFn, [a, b]) == Ok(Matmul.Matmul(a, b));
    Matmul.NumericProducts(0, m, k, n);
  }

  /** `plus(v, w)` reduces to the dim `v + w`, which the evaluator's `as Shape` cast rejects. */
  lemma PlusThroughEvaluator(v: int, w: int)
    ensures EvaluateSType(TableOf(|AllBuiltins|), map[], ShapeFunctionCall("plus", [Num(v), Num(w)], None), 2) ==
      Fail(CastFailure(Num(v + w), "Shape"))
  {
    FlatCall(TableOf(|AllBuiltins|), "plus", [Num(v), Num(w)]);
    BuiltinLookup(PlusFn);
    PlusApplied(v, w);
  }

  lemma PlusApplied(v: int, w: int)
    ensures Apply(PlusFn, [Num(v), Num(w)]) == Ok(Some(Num(v + w)))
  {
    assert CastsSucceed(Parameters(PlusFn), [Num(v), Num(w)]);
    DimArithmetic.PlusTimesOnNumbers(v, w);
  }

  /** An unregistered name evaluates to the resolution error, whatever the arguments. */
  lemma UnknownFunction(exts: Table, name: string, args: seq<SType>)
    requires name !in exts && forall i :: 0 <= i < |args| ==> !ContainsShapeFunctionCalls(args[i]) && Height(args[i]) <= 1
    ensures EvaluateSType(exts, map[], ShapeFunctionCall(name, args, None), 2) ==
      Ok(ErrorUnknownClass(ShapeFunctionResolutionError(UnresolvedMessage(name))))
  {
    FlatCall(exts, name, args);
  }
}
