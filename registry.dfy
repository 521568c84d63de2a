/**
 * The shape-function registry: the table from function names to implementations that the evaluator
 * consults, filled from the extension point and by `registerExtension`. The implementations are the
 * built-in shape functions; each one's generated `apply` checks the number of inputs and casts every
 * input to the parameter's class before calling the function.
 */
module ShapeFunctionRegistry {
  import opened Wrappers
  import opened STypes
  import opened STypeUtils
  import Generics
  import DimArithmetic
  import Broadcast
  import Concat
  import ConcatOnAxis
  import SliceFunction
  import Flatten
  import Matmul

  /** The built-in shape functions. */
  datatype Builtin = PlusFn | TimesFn | BroadcastFn | ConcatFn | ConcatOnAxisFn | SliceFn | FlattenFn | MatmulFn

  /** The two parameter and return classes of shape functions. */
  datatype Kind = DimKind | ShapeKind

  /** A registered extension: the function's name and its implementation. */
  datatype Extension = Extension(name: string, impl: Builtin)

  /** The `@ShapeFunction` name of each built-in (the Kotlin function's name). */
  function Name(f: Builtin): string
  {
    match f
    case PlusFn => "plus"
    case TimesFn => "times"
    case BroadcastFn => "broadcast"
    case ConcatFn => "concat"
    case ConcatOnAxisFn => "concatOnAxis"
    case SliceFn => "slice"
    case FlattenFn => "flatten"
    case MatmulFn => "matmul"
  }

  /** The declared parameter classes, in order. */
  function Parameters(f: Builtin): seq<Kind>
  {
    match f
    case PlusFn => [DimKind, DimKind]
    case TimesFn => [DimKind, DimKind]
    case BroadcastFn => [ShapeKind, ShapeKind]
    case ConcatFn => [ShapeKind, ShapeKind]
    case ConcatOnAxisFn => [ShapeKind, ShapeKind, DimKind]
    case SliceFn => [ShapeKind, DimKind, DimKind, DimKind]
    case FlattenFn => [ShapeKind, DimKind]
    case MatmulFn => [ShapeKind, ShapeKind]
  }

  /** The declared return class: `plus` and `times` return dims, the others shapes. */
  function ReturnType(f: Builtin): Kind
  {
    if f == PlusFn || f == TimesFn then DimKind else ShapeKind
  }

  predicate OfKind(t: SType, k: Kind)
  {
    if k == DimKind then IsDim(t) else IsShape(t)
  }

  /**
   * The casts of the generated `apply` succeed: every input is of its parameter's class. Kotlin's types
   * also guarantee that every value is well-kinded; the model refuses an ill-kinded input like a failed cast.
   */
  predicate CastsSucceed(ps: seq<Kind>, inputs: seq<SType>)
    requires |ps| == |inputs|
  {
    forall i :: 0 <= i < |inputs| ==> OfKind(inputs[i], ps[i]) && WellKinded(inputs[i])
  }

  /** The index of the first input whose cast fails. */
  function FirstBadInput(ps: seq<Kind>, inputs: seq<SType>, from: nat): (i: nat)
    requires |ps| == |inputs| && from <= |inputs|
    requires exists j :: from <= j < |inputs| && !(OfKind(inputs[j], ps[j]) && WellKinded(inputs[j]))
    ensures from <= i < |inputs| && !(OfKind(inputs[i], ps[i]) && WellKinded(inputs[i]))
    decreases |inputs| - from
  {
    if !(OfKind(inputs[from], ps[from]) && WellKinded(inputs[from])) then from else FirstBadInput(ps, inputs, from + 1)
  }

  function KindClassName(k: Kind): string
  {
    if k == DimKind then "Dim" else "Shape"
  }

  /** The generated `apply`: arity check, casts, then the call; `None` is Kotlin's null (no reduction). */
  function Apply(f: Builtin, inputs: seq<SType>): (r: Result<Option<SType>>)
    ensures r.Ok? <==> |inputs| == |Parameters(f)| && CastsSucceed(Parameters(f), inputs)
    ensures |inputs| != |Parameters(f)| ==> r == Fail(Thrown("IllegalArgumentException", ""))
    ensures |inputs| == |Parameters(f)| && !CastsSucceed(Parameters(f), inputs) ==> r.thrown.exceptionClass == "ClassCastException"
  {
    var ps := Parameters(f);
    if |inputs| != |ps| then Fail(Thrown("IllegalArgumentException", ""))
    else if !CastsSucceed(ps, inputs) then
      var i := FirstBadInput(ps, inputs, 0);
      Fail(Generics.CastFailure(inputs[i], KindClassName(ps[i])))
    else
      match f
      case PlusFn => Ok(DimArithmetic.Plus(inputs[0], inputs[1]))
      case TimesFn => Ok(DimArithmetic.Times(inputs[0], inputs[1]))
      case BroadcastFn => Ok(Broadcast.Broadcast(inputs[0], inputs[1]))
      case ConcatFn => Ok(Concat.Concat(inputs[0], inputs[1]))
      case ConcatOnAxisFn => Ok(ConcatOnAxis.ConcatOnAxis(inputs[0], inputs[1], inputs[2]))
      case SliceFn => Ok(SliceFunction.Slice(inputs[0], inputs[1], inputs[2], inputs[3]))
      case FlattenFn => Ok(Flatten.Flatten(inputs[0], inputs[1]))
      case MatmulFn => Ok(Matmul.Matmul(inputs[0], inputs[1]))
  }

  /** The registry: the `extensions` table of the companion object. */
  class Registry {
    var extensions: map<string, Extension>

    /** A table holding the given entries (the IDE's extension point supplies none outside the IDE). */
    constructor(initial: map<string, Extension>)
      ensures extensions == initial
    {
      extensions := initial;
    }

    /** `extensions[name]`. */
    function Get(name: string): (r: Option<Extension>)
      reads this
      ensures r.Some? <==> name in extensions
      ensures r.Some? ==> r.value == extensions[name]
    {
      if name in extensions then Some(extensions[name]) else None
    }

    /**
     * `registerExtension`: a name already present is a fatal configuration error and changes nothing;
     * otherwise the extension is stored under its name and every other entry is kept.
     */
    method RegisterExtension(ext: Extension) returns (r: Result<()>)
      modifies this
      ensures ext.name in old(extensions) ==>
        r == Fail(Thrown("Exception", "Duplicate shape function name found: " + ext.name + ". Please use unique names."))
        && extensions == old(extensions)
      ensures ext.name !in old(extensions) ==> r == Ok(()) && extensions == old(extensions)[ext.name := ext]
      ensures Get(ext.name).Some?
      ensures r.Ok? ==> Get(ext.name) == Some(ext)
    {
      if ext.name in extensions {
        return Fail(Thrown("Exception", "Duplicate shape function name found: " + ext.name + ". Please use unique names."));
      }
      extensions := extensions[ext.name := ext];
      return Ok(());
    }
  }

  // ---------------------------------------------------------------------------------------------
  // Properties

  /** The built-in shape functions, in registration order. */
  const AllBuiltins: seq<Builtin> := [PlusFn, TimesFn, BroadcastFn, ConcatFn, ConcatOnAxisFn, SliceFn, FlattenFn, MatmulFn]

  /** Each built-in is filed under its own name. */
  function BuiltinExtension(f: Builtin): (e: Extension)
    ensures e.name == Name(f) && e.impl == f
  {
    Extension(Name(f), f)
  }

  /** The built-ins have distinct names. */
  lemma NamesDistinct(f: Builtin, g: Builtin)
    ensures Name(f) == Name(g) <==> f == g
  {
  }

  lemma AllBuiltinsListed(f: Builtin)
    ensures f in AllBuiltins
  {
    match f
    case PlusFn => assert AllBuiltins[0] == f;
    case TimesFn => assert AllBuiltins[1] == f;
    case BroadcastFn => assert AllBuiltins[2] == f;
    case ConcatFn => assert AllBuiltins[3] == f;
    case ConcatOnAxisFn => assert AllBuiltins[4] == f;
    case SliceFn => assert AllBuiltins[5] == f;
    case FlattenFn => assert AllBuiltins[6] == f;
    case MatmulFn => assert AllBuiltins[7] == f;
  }

  /** The table after registering the first `n` built-ins. */
  function TableOf(n: nat): map<string, Extension>
    requires n <= |AllBuiltins|
  {
    if n == 0 then map[] else TableOf(n - 1)[Name(AllBuiltins[n - 1]) := BuiltinExtension(AllBuiltins[n - 1])]
  }

  /** The names of the first `n` built-ins are exactly the keys of their table, each filed under its own name. */
  lemma {:induction false} TableOfContents(n: nat)
    requires n <= |AllBuiltins|
    ensures forall k :: 0 <= k < n ==> Name(AllBuiltins[k]) in TableOf(n) && TableOf(n)[Name(AllBuiltins[k])] == BuiltinExtension(AllBuiltins[k])
    ensures forall k :: n <= k < |AllBuiltins| ==> Name(AllBuiltins[k]) !in TableOf(n)
    ensures forall key :: key in TableOf(n) ==> exists f :: Name(f) == key
  {
    if n > 0 {
      TableOfContents(n - 1);
      forall k | 0 <= k < |AllBuiltins| && k != n - 1
        ensures Name(AllBuiltins[k]) != Name(AllBuiltins[n - 1])
      {
        NamesDistinct(AllBuiltins[k], AllBuiltins[n - 1]);
      }
    }
  }

  /**
   * Registering every built-in into an empty table never hits the duplicate-name error, and afterwards
   * exactly the built-in names are present, each mapped to its own implementation.
   */
  method RegisterBuiltins() returns (registry: Registry, ok: bool)
    ensures ok
    ensures forall f :: Name(f) in registry.extensions && registry.extensions[Name(f)] == BuiltinExtension(f)
    ensures forall n :: n in registry.extensions ==> exists f :: Name(f) == n
  {
    registry := new Registry(map[]);
    ok := true;
    var i := 0;
    while i < |AllBuiltins|
      invariant 0 <= i <= |AllBuiltins|
      invariant registry.extensions == TableOf(i)
      invariant ok
    {
      TableOfContents(i);
      var r := registry.RegisterExtension(BuiltinExtension(AllBuiltins[i]));
      ok := ok && r.Ok?;
      i := i + 1;
    }
    TableOfContents(|AllBuiltins|);
    forall f
      ensures Name(f) in registry.extensions && registry.extensions[Name(f)] == BuiltinExtension(f)
    {
      AllBuiltinsListed(f);
    }
  }

  /** Every result of a shape-returning function is a shape, and every result of `plus` and `times` a dim. */
  lemma ApplyReturnsItsKind(f: Builtin, inputs: seq<SType>)
    requires Apply(f, inputs).Ok? && Apply(f, inputs).value.Some?
    ensures OfKind(Apply(f, inputs).value.value, ReturnType(f))
  {
    var ps := Parameters(f);
    assert forall i :: 0 <= i < |inputs| ==> OfKind(inputs[i], ps[i]) && WellKinded(inputs[i]);
    match f
    case PlusFn =>
    case TimesFn =>
    case BroadcastFn =>
    case ConcatFn =>
    case ConcatOnAxisFn =>
    case SliceFn =>
    case FlattenFn =>
    case MatmulFn =>
  }
}
