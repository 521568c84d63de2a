/**
 * The SType value model: the sealed hierarchy of dims, shapes, tuples and error values, together with the
 * STypeException hierarchy they carry (the two refer to each other through the call recorded by an
 * STypeFunctionError, so they share one module).
 *
 * Kotlin's `Dim` and `Shape` subclasses are the constructors of one datatype; `IsDim` and `IsShape` say
 * which of the two sealed classes a value belongs to, and `WellKinded` says that every dim position
 * holds a dim and every bound has its symbol's kind, as Kotlin's static types guarantee.
 */
module STypes {
  import opened Wrappers
  import opened Strings

  // ---------------------------------------------------------------------------------------------
  // Exceptions

  /** The severity of an error carried by an SType. */
  datatype ErrorLevel = ERROR | WARNING | PROPAGATE

  /** The concrete exception classes; an STypeFunctionError copies the level of the error it wraps and records the call. */
  datatype ExceptionKind =
    | CompilerException
    | ErrorPropagation
    | Failure
    | StrictMode
    | UnsupportedSTypes
    | ParsingError
    | ShapeFunctionResolution
    | FunctionError(wrappedLevel: ErrorLevel, call: SType)

  datatype STypeException = STypeException(kind: ExceptionKind, message: string)

  /** `errorLevel`, fixed by the exception class. */
  function Level(e: STypeException): ErrorLevel
  {
    match e.kind
    case CompilerException => ERROR
    case ErrorPropagation => PROPAGATE
    case Failure => ERROR
    case StrictMode => WARNING
    case UnsupportedSTypes => ERROR
    case ParsingError => ERROR
    case ShapeFunctionResolution => ERROR
    case FunctionError(level, _) => level
  }

  function STypeCompilerException(message: string): (e: STypeException)
    ensures Level(e) == ERROR && e.message == message
  {
    STypeException(CompilerException, message)
  }

  const DefaultPropagationMessage: string := "SType could not be fully resolved due to earlier error"

  /** Takes over the wrapped exception's message, or uses the default one. */
  function STypeErrorPropagationException(wrapped: Option<STypeException>): (e: STypeException)
    ensures Level(e) == PROPAGATE
    ensures wrapped.Some? ==> e.message == wrapped.value.message
    ensures wrapped.None? ==> e.message == DefaultPropagationMessage
  {
    STypeException(ErrorPropagation, if wrapped.Some? then wrapped.value.message else DefaultPropagationMessage)
  }

  function STypeFailure(message: string): (e: STypeException)
    ensures Level(e) == ERROR && e.message == message
  {
    STypeException(Failure, message)
  }

  function STypeStrictModeException(message: string): (e: STypeException)
    ensures Level(e) == WARNING && e.message == message
  {
    STypeException(StrictMode, message)
  }

  /** An STypeFailure whose message names the shape function and the JVM classes of its arguments. */
  function UnsupportedSTypesException(fnName: string, args: seq<SType>): (e: STypeException)
    ensures Level(e) == ERROR
    ensures e.message == "One or more illegal SType arguments for shape function " + fnName + ": "
                         + ListToString(ClassNames(args))
  {
    STypeException(UnsupportedSTypes,
      "One or more illegal SType arguments for shape function " + fnName + ": " + ListToString(ClassNames(args)))
  }

  function STypeParsingError(message: string): (e: STypeException)
    ensures Level(e) == ERROR && e.message == message
  {
    STypeException(ParsingError, message)
  }

  function ShapeFunctionResolutionError(message: string): (e: STypeException)
    ensures Level(e) == ERROR && e.message == message
  {
    STypeException(ShapeFunctionResolution, message)
  }

  /** Re-raises `e` as an error of the call `call`, keeping its message and its level. */
  function STypeFunctionError(e: STypeException, call: SType): (r: STypeException)
    ensures r.message == e.message && Level(r) == Level(e)
    ensures r.kind.FunctionError? && r.kind.call == call
  {
    STypeException(FunctionError(Level(e), call), e.message)
  }

  /** The qualified JVM class name of an exception. */
  function ExceptionClassName(e: STypeException): string
  {
    match e.kind
    case CompilerException => "shapeTyping.analysis.exceptions.STypeCompilerException"
    case ErrorPropagation => "shapeTyping.analysis.exceptions.STypeErrorPropagationException"
    case Failure => "shapeTyping.analysis.exceptions.STypeFailure"
    case StrictMode => "shapeTyping.analysis.exceptions.STypeStrictModeException"
    case UnsupportedSTypes => "shapeTyping.analysis.exceptions.UnsupportedSTypesException"
    case ParsingError => "shapeTyping.analysis.exceptions.STypeParsingError"
    case ShapeFunctionResolution => "shapeTyping.analysis.exceptions.ShapeFunctionResolutionError"
    case FunctionError(_, _) => "shapeTyping.plugin.analysis.STypeFunctionError"
  }

  /** `Throwable.toString()`: class name, a colon and the message. */
  function ExceptionToString(e: STypeException): string
  {
    ExceptionClassName(e) + ": " + e.message
  }

  // ---------------------------------------------------------------------------------------------
  // Values

  /**
   * One constructor per concrete SType class. `err` is the optional error of the non-error classes; the
   * error classes carry their (mandatory) error as `exc`. A symbol carries its declaration info
   * (upper bound, strictness, scope id) inline, so its bound is a subterm.
   */
  datatype SType =
    | NumericDim(value: int, err: Option<STypeException>)
    | SymbolicDim(symbol: string, bound: SType, isStrictBound: bool, scopeID: int, err: Option<STypeException>)
    | WildcardDim(err: Option<STypeException>)
    | ErrorDim(exc: STypeException)
    | DimShape(dims: seq<SType>, err: Option<STypeException>)
    | SymbolicShape(symbol: string, bound: SType, isStrictBound: bool, scopeID: int, err: Option<STypeException>)
    | WildcardShape(err: Option<STypeException>)
    | ShapeFunctionCall(name: string, args: seq<SType>, err: Option<STypeException>)
    | ErrorShape(exc: STypeException)
    | STypeTuple(types: seq<SType>, err: Option<STypeException>)
    | ErrorUnknownClass(exc: STypeException)

  /** Membership of the sealed class `Dim`. */
  predicate IsDim(t: SType)
  {
    t.NumericDim? || t.SymbolicDim? || t.WildcardDim? || t.ErrorDim?
  }

  /** Membership of the sealed class `Shape`. */
  predicate IsShape(t: SType)
  {
    t.DimShape? || t.SymbolicShape? || t.WildcardShape? || t.ShapeFunctionCall? || t.ErrorShape?
  }

  /** What Kotlin's static types guarantee: dims hold dims, and every bound has its symbol's kind. */
  predicate WellKinded(t: SType)
  {
    match t
    case SymbolicDim(_, b, _, _, _) => IsDim(b) && WellKinded(b)
    case SymbolicShape(_, b, _, _, _) => IsShape(b) && WellKinded(b)
    case DimShape(ds, _) => forall i :: 0 <= i < |ds| ==> IsDim(ds[i]) && WellKinded(ds[i])
    case ShapeFunctionCall(_, args, _) => forall i :: 0 <= i < |args| ==> WellKinded(args[i])
    case STypeTuple(ts, _) => forall i :: 0 <= i < |ts| ==> WellKinded(ts[i])
    case _ => true
  }

  /** The `error` property common to every SType. */
  function Error(t: SType): Option<STypeException>
  {
    if t.ErrorDim? || t.ErrorShape? || t.ErrorUnknownClass? then Some(t.exc) else t.err
  }

  /** The unnamed `Dim`: a wildcard dim without error. */
  const DefaultWildcardDim: SType := WildcardDim(None)
  /** The unnamed `Shape`: a wildcard shape without error. */
  const DefaultWildcardShape: SType := WildcardShape(None)

  /** `withException`: the same value with `e` as its error. */
  function WithException(t: SType, e: STypeException): (r: SType)
    ensures Error(r) == Some(e)
    ensures IsDim(r) == IsDim(t) && IsShape(r) == IsShape(t)
    ensures Error(t) == Some(e) ==> r == t
  {
    match t
    case NumericDim(v, _) => NumericDim(v, Some(e))
    case SymbolicDim(s, b, st, id, _) => SymbolicDim(s, b, st, id, Some(e))
    case WildcardDim(_) => WildcardDim(Some(e))
    case ErrorDim(_) => ErrorDim(e)
    case DimShape(ds, _) => DimShape(ds, Some(e))
    case SymbolicShape(s, b, st, id, _) => SymbolicShape(s, b, st, id, Some(e))
    case WildcardShape(_) => WildcardShape(Some(e))
    case ShapeFunctionCall(n, args, _) => ShapeFunctionCall(n, args, Some(e))
    case ErrorShape(_) => ErrorShape(e)
    case STypeTuple(ts, _) => STypeTuple(ts, Some(e))
    case ErrorUnknownClass(_) => ErrorUnknownClass(e)
  }

  /** Two `withException` calls in a row leave only the second error: nothing but the error is touched. */
  lemma WithExceptionOverwrites(t: SType, e1: STypeException, e2: STypeException)
    ensures WithException(WithException(t, e1), e2) == WithException(t, e2)
  {
  }

  /** `withException` keeps a value within its custom equality class, except where the error takes part in it. */
  lemma WithExceptionKeepsEquality(t: SType, e: STypeException)
    requires !(t.WildcardDim? || t.ErrorDim? || t.ErrorShape? || t.ErrorUnknownClass?)
    ensures SEq(WithException(t, e), t)
  {
    match t
    case DimShape(ds, _) => ListEqReflexive(ds);
    case ShapeFunctionCall(_, args, _) => ListEqReflexive(args);
    case STypeTuple(ts, _) => ListEqReflexive(ts);
    case _ =>
  }

  lemma WithExceptionWellKinded(t: SType, e: STypeException)
    requires WellKinded(t)
    ensures WellKinded(WithException(t, e))
  {
  }

  /** `propagatesError`: the value carries an error of level PROPAGATE. */
  predicate PropagatesError(t: SType)
  {
    Error(t).Some? && Level(Error(t).value) == PROPAGATE
  }

  lemma PropagatesErrorIff(t: SType, e: STypeException)
    ensures PropagatesError(WithException(t, e)) <==> Level(e) == PROPAGATE
  {
  }

  // ---------------------------------------------------------------------------------------------
  // Custom equality

  /**
   * `equals` as the Kotlin classes override it (`SEq(a, b)` is `a.equals(b)`): symbols by symbol and scope id
   * only, numeric dims by value, dim shapes by their dims, calls by name and arguments, tuples by their
   * types, wildcard shapes all alike; wildcard dims and the error classes keep data-class equality, in
   * which the error takes part.
   */
  predicate SEq(a: SType, b: SType)
    decreases a
  {
    match a
    case NumericDim(v, _) => b.NumericDim? && b.value == v
    case SymbolicDim(s, _, _, id, _) => b.SymbolicDim? && b.symbol == s && b.scopeID == id
    case WildcardDim(e) => b.WildcardDim? && b.err == e
    case ErrorDim(e) => b.ErrorDim? && b.exc == e
    case DimShape(ds, _) => b.DimShape? && ListEq(ds, b.dims)
    case SymbolicShape(s, _, _, id, _) => b.SymbolicShape? && b.symbol == s && b.scopeID == id
    case WildcardShape(_) => b.WildcardShape?
    case ShapeFunctionCall(n, args, _) => b.ShapeFunctionCall? && b.name == n && ListEq(args, b.args)
    case ErrorShape(e) => b.ErrorShape? && b.exc == e
    case STypeTuple(ts, _) => b.STypeTuple? && ListEq(ts, b.types)
    case ErrorUnknownClass(e) => b.ErrorUnknownClass? && b.exc == e
  }

  /** `List.equals`: same length and `SEq` at every index. */
  predicate ListEq(xs: seq<SType>, ys: seq<SType>)
    decreases xs
  {
    |xs| == |ys| && (xs == [] || (SEq(xs[0], ys[0]) && ListEq(xs[1..], ys[1..])))
  }

  lemma {:induction false} ListEqIff(xs: seq<SType>, ys: seq<SType>)
    ensures ListEq(xs, ys) <==> |xs| == |ys| && forall i :: 0 <= i < |xs| ==> SEq(xs[i], ys[i])
    decreases xs
  {
    if xs != [] && |xs| == |ys| {
      ListEqIff(xs[1..], ys[1..]);
      if SEq(xs[0], ys[0]) && ListEq(xs[1..], ys[1..]) {
        forall i | 0 <= i < |xs| ensures SEq(xs[i], ys[i]) {
          if i > 0 { assert xs[i] == xs[1..][i - 1] && ys[i] == ys[1..][i - 1]; }
        }
      }
      if forall i :: 0 <= i < |xs| ==> SEq(xs[i], ys[i]) {
        assert SEq(xs[0], ys[0]);
        forall i | 0 <= i < |xs[1..]| ensures SEq(xs[1..][i], ys[1..][i]) {
          assert xs[1..][i] == xs[i + 1] && ys[1..][i] == ys[i + 1];
        }
      }
    }
  }

  lemma {:induction false} SEqReflexive(a: SType)
    ensures SEq(a, a)
    decreases a
  {
    match a
    case DimShape(ds, _) => ListEqReflexive(ds);
    case ShapeFunctionCall(_, args, _) => ListEqReflexive(args);
    case STypeTuple(ts, _) => ListEqReflexive(ts);
    case _ =>
  }

  lemma {:induction false} ListEqReflexive(xs: seq<SType>)
    ensures ListEq(xs, xs)
    decreases xs
  {
    if xs != [] {
      SEqReflexive(xs[0]);
      ListEqReflexive(xs[1..]);
    }
  }

  lemma {:induction false} SEqSymmetric(a: SType, b: SType)
    requires SEq(a, b)
    ensures SEq(b, a)
    decreases a
  {
    match a
    case DimShape(ds, _) => ListEqSymmetric(ds, b.dims);
    case ShapeFunctionCall(_, args, _) => ListEqSymmetric(args, b.args);
    case STypeTuple(ts, _) => ListEqSymmetric(ts, b.types);
    case _ =>
  }

  lemma {:induction false} ListEqSymmetric(xs: seq<SType>, ys: seq<SType>)
    requires ListEq(xs, ys)
    ensures ListEq(ys, xs)
    decreases xs
  {
    if xs != [] {
      SEqSymmetric(xs[0], ys[0]);
      ListEqSymmetric(xs[1..], ys[1..]);
    }
  }

  lemma {:induction false} SEqTransitive(a: SType, b: SType, c: SType)
    requires SEq(a, b) && SEq(b, c)
    ensures SEq(a, c)
    decreases a
  {
    match a
    case DimShape(ds, _) => ListEqTransitive(ds, b.dims, c.dims);
    case ShapeFunctionCall(_, args, _) => ListEqTransitive(args, b.args, c.args);
    case STypeTuple(ts, _) => ListEqTransitive(ts, b.types, c.types);
    case _ =>
  }

  lemma {:induction false} ListEqTransitive(xs: seq<SType>, ys: seq<SType>, zs: seq<SType>)
    requires ListEq(xs, ys) && ListEq(ys, zs)
    ensures ListEq(xs, zs)
    decreases xs
  {
    if xs != [] {
      SEqTransitive(xs[0], ys[0], zs[0]);
      ListEqTransitive(xs[1..], ys[1..], zs[1..]);
    }
  }

  /** Two symbols are equal exactly when kind, name and scope id agree; bound, strictness and error play no part. */
  lemma SymbolEquality(a: SType, b: SType)
    requires (a.SymbolicDim? && b.SymbolicDim?) || (a.SymbolicShape? && b.SymbolicShape?)
    ensures SEq(a, b) <==> a.symbol == b.symbol && a.scopeID == b.scopeID
  {
  }

  /** Numeric dims compare by value alone, and calls by name and arguments alone. */
  lemma NumericAndCallEquality(a: SType, b: SType)
    requires (a.NumericDim? && b.NumericDim?) || (a.ShapeFunctionCall? && b.ShapeFunctionCall?)
    ensures a.NumericDim? ==> (SEq(a, b) <==> a.value == b.value)
    ensures a.ShapeFunctionCall? ==> (SEq(a, b) <==> a.name == b.name && ListEq(a.args, b.args))
  {
  }

  /** Any two wildcard shapes are equal; two wildcard dims are equal only when their errors are. */
  lemma WildcardEquality(a: SType, b: SType)
    ensures a.WildcardShape? && b.WildcardShape? ==> SEq(a, b)
    ensures a.WildcardDim? && b.WildcardDim? ==> (SEq(a, b) <==> a.err == b.err)
  {
  }

  /** Equality never relates values of two different classes. */
  lemma SEqSameClass(a: SType, b: SType)
    requires SEq(a, b)
    ensures IsDim(a) == IsDim(b) && IsShape(a) == IsShape(b)
    ensures a.NumericDim? == b.NumericDim? && a.SymbolicDim? == b.SymbolicDim? && a.DimShape? == b.DimShape?
  {
  }

  // ---------------------------------------------------------------------------------------------
  // DimShape members and the tuple map

  /** `DimShape.rank`. */
  function Rank(t: SType): (r: nat)
    requires t.DimShape?
    ensures r == |t.dims|
  {
    |t.dims|
  }

  /** Two dim shapes that are equal have the same rank. */
  lemma EqualDimShapesSameRank(a: SType, b: SType)
    requires a.DimShape? && SEq(a, b)
    ensures b.DimShape? && Rank(a) == Rank(b)
  {
  }

  /**
   * `sliceToDimList`: both `require`s fail with IllegalArgumentException, and `subList` itself refuses a
   * start after the end.
   */
  function SliceToDimList(t: SType, startIdx: int, endIdx: int): (r: Result<seq<SType>>)
    requires t.DimShape?
    ensures r.Ok? <==> 0 <= startIdx < Rank(t) && 0 <= endIdx <= Rank(t) && startIdx <= endIdx
    ensures r.Ok? ==> |r.value| == endIdx - startIdx
                      && forall i :: 0 <= i < |r.value| ==> r.value[i] == t.dims[startIdx + i]
    ensures !(0 <= startIdx < Rank(t) && 0 <= endIdx <= Rank(t)) ==> r == Fail(FailedRequirement())
  {
    if !(0 <= startIdx < |t.dims|) || !(0 <= endIdx <= |t.dims|) then Fail(FailedRequirement())
    else if startIdx > endIdx then
      Fail(Thrown("IllegalArgumentException",
                  "fromIndex(" + IntToString(startIdx) + ") > toIndex(" + IntToString(endIdx) + ")"))
    else Ok(t.dims[startIdx..endIdx])
  }

  /** `DimShape.slice`: a new dim shape, without error, of the sliced dims. */
  function Slice(t: SType, startIdx: int, endIdx: int): (r: Result<SType>)
    requires t.DimShape?
    ensures r.Ok? <==> SliceToDimList(t, startIdx, endIdx).Ok?
    ensures r.Ok? ==> r.value.DimShape? && r.value.err.None? && r.value.dims == SliceToDimList(t, startIdx, endIdx).value
  {
    var l :- SliceToDimList(t, startIdx, endIdx);
    Ok(DimShape(l, None))
  }

  /** `STypeTuple.map`: `f` applied to every type, keeping the order, the length and the tuple's error. */
  function MapTuple(t: SType, f: SType -> SType): (r: SType)
    requires t.STypeTuple?
    ensures r.STypeTuple? && r.err == t.err && |r.types| == |t.types|
    ensures forall i :: 0 <= i < |t.types| ==> r.types[i] == f(t.types[i])
  {
    STypeTuple(seq(|t.types|, i requires 0 <= i < |t.types| => f(t.types[i])), t.err)
  }

  // ---------------------------------------------------------------------------------------------
  // toString, used where messages interpolate values

  /** `javaClass.name` of a value. */
  function ClassName(t: SType): string
  {
    match t
    case NumericDim(_, _) => "shapeTyping.analysis.NumericDim"
    case SymbolicDim(_, _, _, _, _) => "shapeTyping.analysis.SymbolicDim"
    case WildcardDim(_) => "shapeTyping.analysis.WildcardDim"
    case ErrorDim(_) => "shapeTyping.analysis.ErrorDim"
    case DimShape(_, _) => "shapeTyping.analysis.DimShape"
    case SymbolicShape(_, _, _, _, _) => "shapeTyping.analysis.SymbolicShape"
    case WildcardShape(_) => "shapeTyping.analysis.WildcardShape"
    case ShapeFunctionCall(_, _, _) => "shapeTyping.analysis.ShapeFunctionCall"
    case ErrorShape(_) => "shapeTyping.analysis.ErrorShape"
    case STypeTuple(_, _) => "shapeTyping.analysis.STypeTuple"
    case ErrorUnknownClass(_) => "shapeTyping.analysis.ErrorUnknownClass"
  }

  function ClassNames(ts: seq<SType>): (r: seq<string>)
    ensures |r| == |ts| && forall i :: 0 <= i < |ts| ==> r[i] == ClassName(ts[i])
  {
    seq(|ts|, i requires 0 <= i < |ts| => ClassName(ts[i]))
  }

  /** The overridden `toString` of each class. */
  function Show(t: SType): string
    decreases t
  {
    match t
    case NumericDim(v, _) => IntToString(v)
    case SymbolicDim(s, b, _, _, _) => s + ": " + Show(b)
    case WildcardDim(_) => "Dim"
    case ErrorDim(_) => "ERROR_DIM"
    case DimShape(ds, _) => ListToString(ShowAll(ds))
    case SymbolicShape(s, b, _, _, _) => s + ": " + Show(b)
    case WildcardShape(_) => "Shape"
    case ShapeFunctionCall(n, args, _) => n + "(" + Join(ShowAll(args), ",") + ")"
    case ErrorShape(e) => "ERROR_SHAPE: " + ExceptionToString(e)
    case STypeTuple(ts, _) => "SType(" + ListToString(ShowAll(ts)) + ")"
    case ErrorUnknownClass(e) => "ERROR: " + ExceptionToString(e)
  }

  function ShowAll(ts: seq<SType>): (r: seq<string>)
    ensures |r| == |ts|
    decreases ts
  {
    if ts == [] then [] else [Show(ts[0])] + ShowAll(ts[1..])
  }
}
