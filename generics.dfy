/**
 * Generic (symbol) handling on STypes: the structural "contains" predicates, one-step relaxation of
 * symbols to their upper bounds, substitution through a symbol map, and the iterator over pairs of
 * relaxations used by inference.
 */
module Generics {
  import opened Wrappers
  import opened STypes
  import opened STypeUtils

  // ---------------------------------------------------------------------------------------------
  // Structural predicates

  /** `recursivePredicateAny`: `p` holds of the value or of a node reached through dims, call args or tuple types (never bounds). */
  predicate RecursivePredicateAny(t: SType, p: SType -> bool)
    decreases t
  {
    p(t) ||
    match t
    case DimShape(ds, _) => exists i :: 0 <= i < |ds| && RecursivePredicateAny(ds[i], p)
    case ShapeFunctionCall(_, args, _) => exists i :: 0 <= i < |args| && RecursivePredicateAny(args[i], p)
    case STypeTuple(ts, _) => exists i :: 0 <= i < |ts| && RecursivePredicateAny(ts[i], p)
    case _ => false
  }

  predicate ContainsSymbols(t: SType)
  {
    RecursivePredicateAny(t, IsSymbolic)
  }

  predicate ContainsErrors(t: SType)
  {
    RecursivePredicateAny(t, IsError)
  }

  predicate ContainsShapeFunctionCalls(t: SType)
  {
    RecursivePredicateAny(t, (u: SType) => u.ShapeFunctionCall?)
  }

  /** The children `recursivePredicateAny` descends into. */
  function Children(t: SType): seq<SType>
  {
    match t
    case DimShape(ds, _) => ds
    case ShapeFunctionCall(_, args, _) => args
    case STypeTuple(ts, _) => ts
    case _ => []
  }

  /** A value contains symbols iff it is a symbol or one of its children contains symbols. */
  lemma ContainsSymbolsIff(t: SType)
    ensures ContainsSymbols(t) <==> IsSymbolic(t) || exists i :: 0 <= i < |Children(t)| && ContainsSymbols(Children(t)[i])
  {
    match t
    case DimShape(ds, _) => assert Children(t) == ds;
    case ShapeFunctionCall(_, args, _) => assert Children(t) == args;
    case STypeTuple(ts, _) => assert Children(t) == ts;
    case _ =>
  }

  /** Bounds are not inspected: a concrete value never contains symbols through its own error or bound. */
  lemma LeavesContainNoSymbols(t: SType)
    requires t.NumericDim? || t.WildcardDim? || t.WildcardShape? || IsError(t)
    ensures !ContainsSymbols(t)
  {
  }

  // ---------------------------------------------------------------------------------------------
  // Relaxation to upper bounds

  /** How many relaxation steps it takes to make a value symbol-free: a symbol needs one more than its bound. */
  function SymDepth(t: SType): nat
    decreases t
  {
    match t
    case SymbolicDim(_, b, _, _, _) => 1 + SymDepth(b)
    case SymbolicShape(_, b, _, _, _) => 1 + SymDepth(b)
    case DimShape(ds, _) => MaxDepth(ds)
    case ShapeFunctionCall(_, args, _) => MaxDepth(args)
    case STypeTuple(ts, _) => MaxDepth(ts)
    case _ => 0
  }

  function MaxDepth(ts: seq<SType>): (d: nat)
    ensures forall i :: 0 <= i < |ts| ==> SymDepth(ts[i]) <= d
    ensures ts == [] ==> d == 0
    ensures ts != [] ==> exists i :: 0 <= i < |ts| && SymDepth(ts[i]) == d
    decreases ts
  {
    if ts == [] then 0
    else
      var rest := MaxDepth(ts[1..]);
      assert forall i :: 1 <= i < |ts| ==> ts[i] == ts[1..][i - 1];
      if SymDepth(ts[0]) >= rest then SymDepth(ts[0]) else rest
  }

  lemma {:induction false} SymDepthZeroIff(t: SType)
    ensures SymDepth(t) == 0 <==> !ContainsSymbols(t)
    decreases t
  {
    var cs := Children(t);
    forall i | 0 <= i < |cs| ensures SymDepth(cs[i]) == 0 <==> !ContainsSymbols(cs[i]) {
      SymDepthZeroIff(cs[i]);
    }
  }

  /** `Dim.substituteGenericsWithUpperBounds`: a symbolic dim becomes its bound, any other dim is kept. */
  function RelaxDim(t: SType): (r: SType)
    requires IsDim(t)
    ensures IsSymbolic(t) ==> r == t.bound
    ensures !IsSymbolic(t) ==> r == t
  {
    if t.SymbolicDim? then t.bound else t
  }

  /**
   * `substituteGenericsWithUpperBounds`: every outermost symbol occurrence (not inside a bound) is replaced by its
   * declared bound, one step only. A symbol-free shape is returned unchanged; rebuilt dim shapes, calls
   * and tuples lose their own error.
   */
  function Relax(t: SType): SType
    decreases t
  {
    match t
    case NumericDim(_, _) => RelaxDim(t)
    case SymbolicDim(_, _, _, _, _) => RelaxDim(t)
    case WildcardDim(_) => RelaxDim(t)
    case ErrorDim(_) => RelaxDim(t)
    case DimShape(ds, _) => if !ContainsSymbols(t) then t else DimShape(RelaxAll(ds), None)
    case SymbolicShape(_, b, _, _, _) => b
    case WildcardShape(_) => t
    case ShapeFunctionCall(n, args, _) => if !ContainsSymbols(t) then t else ShapeFunctionCall(n, RelaxAll(args), None)
    case ErrorShape(_) => t
    case STypeTuple(ts, _) => STypeTuple(RelaxAll(ts), None)
    case ErrorUnknownClass(_) => t
  }

  function RelaxAll(ts: seq<SType>): (r: seq<SType>)
    ensures |r| == |ts| && forall i :: 0 <= i < |ts| ==> r[i] == Relax(ts[i])
    decreases ts
  {
    if ts == [] then [] else [Relax(ts[0])] + RelaxAll(ts[1..])
  }

  /** Relaxation keeps the class: dims stay dims, shapes stay shapes, dim shapes keep their rank. */
  lemma RelaxKeepsClass(t: SType)
    requires WellKinded(t)
    ensures IsDim(Relax(t)) == IsDim(t) && IsShape(Relax(t)) == IsShape(t) && WellKinded(Relax(t))
    ensures t.DimShape? ==> Relax(t).DimShape? && |Relax(t).dims| == |t.dims|
    decreases t
  {
    match t
    case DimShape(ds, _) =>
      if ContainsSymbols(t) {
        forall i | 0 <= i < |ds| ensures IsDim(Relax(ds[i])) && WellKinded(Relax(ds[i])) { RelaxKeepsClass(ds[i]); }
      }
    case ShapeFunctionCall(_, args, _) =>
      if ContainsSymbols(t) {
        forall i | 0 <= i < |args| ensures WellKinded(Relax(args[i])) { RelaxKeepsClass(args[i]); }
      }
    case STypeTuple(ts, _) =>
      forall i | 0 <= i < |ts| ensures WellKinded(Relax(ts[i])) { RelaxKeepsClass(ts[i]); }
    case _ =>
  }

  /** A symbol-free value is a fixed point of relaxation, except that a tuple drops its error. */
  lemma {:induction false} RelaxSymbolFree(t: SType)
    requires !ContainsSymbols(t) && !t.STypeTuple?
    ensures Relax(t) == t
  {
  }

  /** Each relaxation of a value with symbols strictly lowers its depth, so repeated relaxation ends. */
  lemma {:induction false} RelaxDecreasesDepth(t: SType)
    requires ContainsSymbols(t)
    ensures SymDepth(Relax(t)) < SymDepth(t)
    decreases t
  {
    SymDepthZeroIff(t);
    match t
    case SymbolicDim(_, _, _, _, _) =>
    case SymbolicShape(_, _, _, _, _) =>
    case DimShape(ds, _) => ChildrenDepthDecrease(ds);
    case ShapeFunctionCall(_, args, _) => ChildrenDepthDecrease(args);
    case STypeTuple(ts, _) => ChildrenDepthDecrease(ts);
  }

  lemma {:induction false} ChildrenDepthDecrease(ts: seq<SType>)
    requires MaxDepth(ts) > 0
    ensures MaxDepth(RelaxAll(ts)) < MaxDepth(ts)
    decreases ts, 0
  {
    var rs := RelaxAll(ts);
    forall i | 0 <= i < |ts| ensures SymDepth(rs[i]) < MaxDepth(ts) {
      SymDepthZeroIff(ts[i]);
      if ContainsSymbols(ts[i]) {
        RelaxDecreasesDepth(ts[i]);
      } else {
        RelaxSymbolFreeDepth(ts[i]);
      }
    }
  }

  lemma {:induction false} RelaxSymbolFreeDepth(t: SType)
    requires !ContainsSymbols(t)
    ensures SymDepth(Relax(t)) == 0
    decreases t
  {
    SymDepthZeroIff(t);
    if t.STypeTuple? {
      forall i | 0 <= i < |t.types| ensures SymDepth(Relax(t.types[i])) == 0 {
        RelaxSymbolFreeDepth(t.types[i]);
      }
    }
  }

  // ---------------------------------------------------------------------------------------------
  // Chains of upper bounds

  /** The condition of the loops that walk bounds: a symbol of the kind being walked (shape or dim). */
  predicate IsKindSymbol(t: SType, isShape: bool)
  {
    if isShape then t.SymbolicShape? else t.SymbolicDim?
  }

  /** The upper bounds met from `bound` on: each next one is the bound of the previous, ending at the first non-symbol. */
  function BoundChain(bound: SType, isShape: bool): (chain: seq<SType>)
    ensures |chain| >= 1 && chain[0] == bound && !IsKindSymbol(chain[|chain| - 1], isShape)
    ensures forall i :: 0 <= i < |chain| - 1 ==> IsKindSymbol(chain[i], isShape) && chain[i + 1] == chain[i].bound
    decreases bound
  {
    if IsKindSymbol(bound, isShape) then
      var rest := BoundChain(bound.bound, isShape);
      assert forall i :: 1 <= i < |rest| + 1 ==> ([bound] + rest)[i] == rest[i - 1];
      [bound] + rest
    else [bound]
  }

  // ---------------------------------------------------------------------------------------------
  // Substitution

  /** The key a substitution map files a symbol under: its kind, name and scope id (what symbol equality compares). */
  datatype SymKey = SymKey(isShape: bool, symbol: string, scopeID: int)

  type Substitutions = map<SymKey, SType>

  function Key(t: SType): (k: SymKey)
    requires IsSymbolic(t)
  {
    SymKey(t.SymbolicShape?, t.symbol, t.scopeID)
  }

  /** Two symbols have the same key exactly when they are equal. */
  lemma KeyMatchesEquality(a: SType, b: SType)
    requires IsSymbolic(a) && IsSymbolic(b)
    ensures Key(a) == Key(b) <==> SEq(a, b)
  {
  }

  /** `substitutions[t]`: only symbols are keys. */
  function Lookup(m: Substitutions, t: SType): (r: Option<SType>)
    ensures r.Some? <==> IsSymbolic(t) && Key(t) in m
    ensures r.Some? ==> r.value == m[Key(t)]
  {
    if IsSymbolic(t) && Key(t) in m then Some(m[Key(t)]) else None
  }

  /** The last value of the chain of lookups from `t`, if it is reached within `fuel` lookups. */
  function ChaseWithin(m: Substitutions, t: SType, fuel: nat): Option<SType>
    decreases fuel
  {
    match Lookup(m, t)
    case None => Some(t)
    case Some(next) => if fuel == 0 then None else ChaseWithin(m, next, fuel - 1)
  }

  /** The map has no cycles: from every value, the chain of lookups ends within as many steps as there are keys. */
  ghost predicate Acyclic(m: Substitutions)
  {
    forall t :: ChaseWithin(m, t, |m|).Some?
  }

  /** What `getSubstitutionIfExists` returns: the end of the lookup chain starting at `t`. */
  function Chase(m: Substitutions, t: SType): (r: SType)
    requires Acyclic(m)
  {
    ChaseWithin(m, t, |m|).value
  }

  lemma {:induction false} ChaseWithinEnd(m: Substitutions, t: SType, fuel: nat)
    requires ChaseWithin(m, t, fuel).Some?
    ensures Lookup(m, ChaseWithin(m, t, fuel).value).None?
    ensures Lookup(m, t).None? ==> ChaseWithin(m, t, fuel).value == t
    ensures Lookup(m, t).Some? ==> fuel > 0 && ChaseWithin(m, Lookup(m, t).value, fuel - 1) == ChaseWithin(m, t, fuel)
    decreases fuel
  {
    if Lookup(m, t).Some? { ChaseWithinEnd(m, Lookup(m, t).value, fuel - 1); }
  }

  lemma {:induction false} ChaseWithinMoreFuel(m: Substitutions, t: SType, fuel: nat, more: nat)
    requires ChaseWithin(m, t, fuel).Some? && fuel <= more
    ensures ChaseWithin(m, t, more) == ChaseWithin(m, t, fuel)
    decreases fuel
  {
    if Lookup(m, t).Some? { ChaseWithinMoreFuel(m, Lookup(m, t).value, fuel - 1, more - 1); }
  }

  /** The chase ends at a value without entry; an unmapped value is its own end; a mapped symbol ends where its image ends. */
  lemma ChaseProperties(m: Substitutions, t: SType)
    requires Acyclic(m)
    ensures Lookup(m, Chase(m, t)).None?
    ensures Lookup(m, t).None? ==> Chase(m, t) == t
    ensures Lookup(m, t).Some? ==> Chase(m, t) == Chase(m, Lookup(m, t).value)
  {
    ChaseWithinEnd(m, t, |m|);
    if Lookup(m, t).Some? {
      var next := Lookup(m, t).value;
      assert ChaseWithin(m, next, |m|).Some?;
      ChaseWithinMoreFuel(m, next, |m| - 1, |m|);
    }
  }

  /** `getSubstitutionIfExists`: the `while` loop that follows the map until a value has no entry. */
  method GetSubstitutionIfExists(m: Substitutions, t: SType) returns (curr: SType)
    requires Acyclic(m)
    ensures curr == Chase(m, t)
    ensures Lookup(m, curr).None?
  {
    curr := t;
    var next := Lookup(m, t);
    ghost var fuel: nat := |m|;
    while next.Some?
      invariant next == Lookup(m, curr)
      invariant ChaseWithin(m, curr, fuel) == ChaseWithin(m, t, |m|)
      decreases fuel
    {
      ChaseWithinEnd(m, curr, fuel);
      curr := next.value;
      next := Lookup(m, curr);
      fuel := fuel - 1;
    }
    ChaseWithinEnd(m, curr, fuel);
  }

  /** Dim keys map to dims and shape keys to shapes: what the Kotlin casts in `substitute` rely on. */
  predicate KindConsistent(m: Substitutions)
  {
    forall k :: k in m ==> (if k.isShape then IsShape(m[k]) else IsDim(m[k]))
  }

  lemma {:induction false} ChaseWithinKeepsKind(m: Substitutions, t: SType, fuel: nat)
    requires KindConsistent(m) && ChaseWithin(m, t, fuel).Some?
    ensures IsDim(t) ==> IsDim(ChaseWithin(m, t, fuel).value)
    ensures IsShape(t) ==> IsShape(ChaseWithin(m, t, fuel).value)
    decreases fuel
  {
    if Lookup(m, t).Some? { ChaseWithinKeepsKind(m, Lookup(m, t).value, fuel - 1); }
  }

  /** The exception a failing Kotlin `as` cast raises (the JVM's message, without its module details). */
  function CastFailure(t: SType, target: string): Thrown
  {
    Thrown("ClassCastException", ClassName(t) + " cannot be cast to shapeTyping.analysis." + target)
  }

  function CastToDim(t: SType): (r: Result<SType>)
    ensures r.Ok? <==> IsDim(t)
    ensures r.Ok? ==> r.value == t
  {
    if IsDim(t) then Ok(t) else Fail(CastFailure(t, "Dim"))
  }

  /**
   * `substitute`: a symbol-free value is returned as is; a symbol is replaced by the end of its lookup chain;
   * dim shapes, calls and tuples are rebuilt (without their own error) from substituted children. Inside a
   * call only symbolic dims and symbol-containing shapes are substituted; the `as Dim` cast on a dim
   * shape's substituted dims throws when the map sends a dim symbol to a shape.
   */
  function Substitute(m: Substitutions, t: SType): (r: Result<SType>)
    requires Acyclic(m)
    ensures r.Ok? && t.DimShape? ==> r.value.DimShape? && |r.value.dims| == |t.dims|
    ensures r.Ok? && t.ShapeFunctionCall? ==>
      r.value.ShapeFunctionCall? && r.value.name == t.name && |r.value.args| == |t.args|
    ensures r.Ok? && t.STypeTuple? ==> r.value.STypeTuple? && |r.value.types| == |t.types|
    ensures ContainsSymbols(t) && t.DimShape? ==>
      (r.Ok? ==> r.value.err.None? && forall i :: 0 <= i < |t.dims| ==> SubstituteDim(m, t.dims[i]) == Ok(r.value.dims[i])) &&
      (r.Fail? ==> exists i :: 0 <= i < |t.dims| && SubstituteDim(m, t.dims[i]) == Fail(r.thrown))
    ensures ContainsSymbols(t) && t.ShapeFunctionCall? ==>
      (r.Ok? ==> r.value.err.None? && forall i :: 0 <= i < |t.args| ==> SubstituteArg(m, t.args[i]) == Ok(r.value.args[i])) &&
      (r.Fail? ==> exists i :: 0 <= i < |t.args| && SubstituteArg(m, t.args[i]) == Fail(r.thrown))
    ensures ContainsSymbols(t) && t.STypeTuple? ==>
      (r.Ok? ==> r.value.err.None? && forall i :: 0 <= i < |t.types| ==> Substitute(m, t.types[i]) == Ok(r.value.types[i])) &&
      (r.Fail? ==> exists i :: 0 <= i < |t.types| && Substitute(m, t.types[i]) == Fail(r.thrown))
    decreases t, 1
  {
    if !ContainsSymbols(t) then Ok(t)
    else match t
      case SymbolicDim(_, _, _, _, _) => Ok(Chase(m, t))
      case SymbolicShape(_, _, _, _, _) => Ok(Chase(m, t))
      case DimShape(ds, _) =>
        var nds :- SubstituteDims(m, ds);
        Ok(DimShape(nds, None))
      case ShapeFunctionCall(name, args, _) =>
        var nargs :- SubstituteArgs(m, args);
        Ok(ShapeFunctionCall(name, nargs, None))
      case STypeTuple(ts, _) =>
        var nts :- SubstituteAll(m, ts);
        Ok(STypeTuple(nts, None))
      case _ => Fail(Thrown("Exception", "only SymbolicShapes, DimShapes, or ShapeFunctionCalls can be symbolic"))
  }

  /** One dim of a dim shape: substituted, then cast back with `as Dim`. */
  function SubstituteDim(m: Substitutions, d: SType): (r: Result<SType>)
    requires Acyclic(m)
    ensures r.Ok? ==> IsDim(r.value) && Substitute(m, d) == Ok(r.value)
    ensures r.Fail? ==> Substitute(m, d).Fail? || !IsDim(Substitute(m, d).value)
    decreases d, 2
  {
    var d' :- Substitute(m, d);
    CastToDim(d')
  }

  /** `map { it.substitute(substitutions) as Dim }`: each dim in order, the first failure thrown. */
  function SubstituteDims(m: Substitutions, ds: seq<SType>): (r: Result<seq<SType>>)
    requires Acyclic(m)
    ensures r.Ok? ==> |r.value| == |ds| && forall i :: 0 <= i < |ds| ==> SubstituteDim(m, ds[i]) == Ok(r.value[i])
    ensures r.Fail? ==> exists i :: 0 <= i < |ds| && SubstituteDim(m, ds[i]) == Fail(r.thrown)
    decreases ds
  {
    if ds == [] then Ok([])
    else
      var d :- SubstituteDim(m, ds[0]);
      var rest :- SubstituteDims(m, ds[1..]);
      assert forall i :: 1 <= i < |ds| ==> ds[i] == ds[1..][i - 1];
      Ok([d] + rest)
  }

  /** One argument of a call: a dim symbol is looked up, a shape with symbols substituted, anything else kept. */
  function SubstituteArg(m: Substitutions, a: SType): (r: Result<SType>)
    requires Acyclic(m)
    ensures a.SymbolicDim? ==> r == Ok(Chase(m, a))
    ensures !a.SymbolicDim? && !(IsShape(a) && ContainsSymbols(a)) ==> r == Ok(a)
    decreases a, 2
  {
    if a.SymbolicDim? then Ok(Chase(m, a))
    else if IsShape(a) && ContainsSymbols(a) then Substitute(m, a)
    else Ok(a)
  }

  /** The call's argument map: each argument in order, the first failure thrown. */
  function SubstituteArgs(m: Substitutions, args: seq<SType>): (r: Result<seq<SType>>)
    requires Acyclic(m)
    ensures r.Ok? ==> |r.value| == |args| && forall i :: 0 <= i < |args| ==> SubstituteArg(m, args[i]) == Ok(r.value[i])
    ensures r.Fail? ==> exists i :: 0 <= i < |args| && SubstituteArg(m, args[i]) == Fail(r.thrown)
    decreases args
  {
    if args == [] then Ok([])
    else
      var a :- SubstituteArg(m, args[0]);
      var rest :- SubstituteArgs(m, args[1..]);
      assert forall i :: 1 <= i < |args| ==> args[i] == args[1..][i - 1];
      Ok([a] + rest)
  }

  /** `types.map { it.substitute(substitutions) }`: each member in order, the first failure thrown. */
  function SubstituteAll(m: Substitutions, ts: seq<SType>): (r: Result<seq<SType>>)
    requires Acyclic(m)
    ensures r.Ok? ==> |r.value| == |ts| && forall i :: 0 <= i < |ts| ==> Substitute(m, ts[i]) == Ok(r.value[i])
    ensures r.Fail? ==> exists i :: 0 <= i < |ts| && Substitute(m, ts[i]) == Fail(r.thrown)
    decreases ts
  {
    if ts == [] then Ok([])
    else
      var x :- Substitute(m, ts[0]);
      var rest :- SubstituteAll(m, ts[1..]);
      assert forall i :: 1 <= i < |ts| ==> ts[i] == ts[1..][i - 1];
      Ok([x] + rest)
  }

  /** A value without symbols is left as it is. */
  lemma SubstituteSymbolFree(m: Substitutions, t: SType)
    requires Acyclic(m) && !ContainsSymbols(t)
    ensures Substitute(m, t) == Ok(t)
  {
  }

  /** A symbol is replaced by following the map to a value without entry; an unmapped symbol stays as it is. */
  lemma SubstituteSymbol(m: Substitutions, t: SType)
    requires Acyclic(m) && IsSymbolic(t)
    ensures Substitute(m, t).Ok?
    ensures Lookup(m, Substitute(m, t).value).None?
    ensures Lookup(m, t).None? ==> Substitute(m, t) == Ok(t)
    ensures Lookup(m, t).Some? ==> Substitute(m, t) == Ok(Chase(m, Lookup(m, t).value))
  {
    ChaseProperties(m, t);
  }

  /**
   * With a map that sends dim symbols to dims and shape symbols to shapes, substitution never throws on a
   * well-kinded value, and it keeps dims dims and shapes shapes.
   */
  lemma {:induction false} SubstituteSucceeds(m: Substitutions, t: SType)
    requires Acyclic(m) && KindConsistent(m) && WellKinded(t)
    ensures Substitute(m, t).Ok?
    ensures IsDim(t) ==> IsDim(Substitute(m, t).value)
    ensures IsShape(t) ==> IsShape(Substitute(m, t).value)
    decreases t, 1
  {
    if ContainsSymbols(t) {
      match t
      case SymbolicDim(_, _, _, _, _) => ChaseWithinKeepsKind(m, t, |m|);
      case SymbolicShape(_, _, _, _, _) => ChaseWithinKeepsKind(m, t, |m|);
      case DimShape(ds, _) => SubstituteDimsSucceeds(m, ds);
      case ShapeFunctionCall(_, args, _) => SubstituteArgsSucceeds(m, args);
      case STypeTuple(ts, _) => SubstituteAllSucceeds(m, ts);
      case NumericDim(_, _) => LeavesContainNoSymbols(t);
      case WildcardDim(_) => LeavesContainNoSymbols(t);
      case ErrorDim(_) => LeavesContainNoSymbols(t);
      case WildcardShape(_) => LeavesContainNoSymbols(t);
      case ErrorShape(_) => LeavesContainNoSymbols(t);
      case ErrorUnknownClass(_) => LeavesContainNoSymbols(t);
    }
  }

  lemma {:induction false} SubstituteDimsSucceeds(m: Substitutions, ds: seq<SType>)
    requires Acyclic(m) && KindConsistent(m)
    requires forall i :: 0 <= i < |ds| ==> IsDim(ds[i]) && WellKinded(ds[i])
    ensures SubstituteDims(m, ds).Ok?
    decreases ds
  {
    if ds != [] {
      SubstituteSucceeds(m, ds[0]);
      assert SubstituteDim(m, ds[0]).Ok?;
      SubstituteDimsSucceeds(m, ds[1..]);
    }
  }

  lemma {:induction false} SubstituteArgsSucceeds(m: Substitutions, args: seq<SType>)
    requires Acyclic(m) && KindConsistent(m)
    requires forall i :: 0 <= i < |args| ==> WellKinded(args[i])
    ensures SubstituteArgs(m, args).Ok?
    decreases args
  {
    if args != [] {
      if !args[0].SymbolicDim? && IsShape(args[0]) && ContainsSymbols(args[0]) {
        SubstituteSucceeds(m, args[0]);
      }
      SubstituteArgsSucceeds(m, args[1..]);
    }
  }

  lemma {:induction false} SubstituteAllSucceeds(m: Substitutions, ts: seq<SType>)
    requires Acyclic(m) && KindConsistent(m)
    requires forall i :: 0 <= i < |ts| ==> WellKinded(ts[i])
    ensures SubstituteAll(m, ts).Ok?
    decreases ts
  {
    if ts != [] {
      SubstituteSucceeds(m, ts[0]);
      SubstituteAllSucceeds(m, ts[1..]);
    }
  }

  // ---------------------------------------------------------------------------------------------
  // Iteration over pairs of relaxations

  /** The relaxations of `x`: `x` itself, then one more relaxation step each, until a symbol-free value. */
  function RelaxChain(x: SType): (chain: seq<SType>)
    ensures |chain| >= 1 && chain[0] == x
    decreases SymDepth(x)
  {
    if ContainsSymbols(x) then
      RelaxDecreasesDepth(x);
      [x] + RelaxChain(Relax(x))
    else [x]
  }

  /** Every left relaxation paired with every right relaxation, left-major: the nested loop of the class comment. */
  function Product(ls: seq<SType>, rs: seq<SType>): (ps: seq<(SType, SType)>)
    decreases ls
  {
    if ls == [] then [] else PairWith(ls[0], rs) + Product(ls[1..], rs)
  }

  function PairWith(l: SType, rs: seq<SType>): (ps: seq<(SType, SType)>)
    ensures |ps| == |rs| && forall k :: 0 <= k < |rs| ==> ps[k] == (l, rs[k])
  {
    seq(|rs|, k requires 0 <= k < |rs| => (l, rs[k]))
  }

  /** The pairs `next()` returns after the first one, from the state (currSubForL, currSubForR) and the original `r`. */
  function PairsAfter(currL: SType, currR: SType, r: SType): seq<(SType, SType)>
    decreases SymDepth(currL), SymDepth(currR)
  {
    if ContainsSymbols(currR) then
      RelaxDecreasesDepth(currR);
      [(currL, Relax(currR))] + PairsAfter(currL, Relax(currR), r)
    else if ContainsSymbols(currL) then
      RelaxDecreasesDepth(currL);
      [(Relax(currL), r)] + PairsAfter(Relax(currL), r, r)
    else []
  }

  lemma PairWithCons(l: SType, rs: seq<SType>)
    requires |rs| >= 1
    ensures PairWith(l, rs) == [(l, rs[0])] + PairWith(l, rs[1..])
  {
  }

  lemma ConsAssociative<T>(x: T, a: seq<T>, b: seq<T>)
    ensures [x] + (a + b) == ([x] + a) + b
  {
  }

  lemma SnocAssociative<T>(a: seq<T>, x: T, b: seq<T>)
    ensures a + ([x] + b) == (a + [x]) + b
  {
  }

  lemma AppendEmpty<T>(a: seq<T>)
    ensures a + [] == a
  {
  }

  lemma RelaxChainTail(x: SType)
    requires ContainsSymbols(x)
    ensures RelaxChain(x)[1..] == RelaxChain(Relax(x))
  {
  }

  /** The claim of `PairsAfterIsProductTail` for one state. */
  predicate PairsAfterMatches(currL: SType, currR: SType, r: SType) {
    PairsAfter(currL, currR, r) == PairWith(currL, RelaxChain(currR)[1..]) + Product(RelaxChain(currL)[1..], RelaxChain(r))
  }

  lemma PairsAfterStepRight(currL: SType, currR: SType, r: SType)
    requires ContainsSymbols(currR) && PairsAfterMatches(currL, Relax(currR), r)
    ensures PairsAfterMatches(currL, currR, r)
  {
    var next := Relax(currR);
    var tailL := Product(RelaxChain(currL)[1..], RelaxChain(r));
    RelaxChainTail(currR);
    PairWithCons(currL, RelaxChain(next));
    calc {
      PairsAfter(currL, currR, r);
      [(currL, next)] + PairsAfter(currL, next, r);
      [(currL, next)] + (PairWith(currL, RelaxChain(next)[1..]) + tailL);
      { ConsAssociative((currL, next), PairWith(currL, RelaxChain(next)[1..]), tailL); }
      ([(currL, next)] + PairWith(currL, RelaxChain(next)[1..])) + tailL;
    }
  }

  lemma PairsAfterStepLeft(currL: SType, currR: SType, r: SType)
    requires !ContainsSymbols(currR) && ContainsSymbols(currL) && PairsAfterMatches(Relax(currL), r, r)
    ensures PairsAfterMatches(currL, currR, r)
  {
    var next := Relax(currL);
    var tailN := Product(RelaxChain(next)[1..], RelaxChain(r));
    RelaxChainTail(currL);
    PairWithCons(next, RelaxChain(r));
    assert RelaxChain(currR) == [currR];
    assert PairWith(currL, RelaxChain(currR)[1..]) == [];
    calc {
      PairsAfter(currL, currR, r);
      [(next, r)] + PairsAfter(next, r, r);
      [(next, r)] + (PairWith(next, RelaxChain(r)[1..]) + tailN);
      { ConsAssociative((next, r), PairWith(next, RelaxChain(r)[1..]), tailN); }
      ([(next, r)] + PairWith(next, RelaxChain(r)[1..])) + tailN;
      PairWith(next, RelaxChain(r)) + tailN;
      Product(RelaxChain(currL)[1..], RelaxChain(r));
    }
  }

  /** After the state (currL, currR): the rest of currR's relaxations, then all later relaxations of `l` against all of `r`'s. */
  lemma {:induction false} PairsAfterIsProductTail(currL: SType, currR: SType, r: SType)
    ensures PairsAfterMatches(currL, currR, r)
    decreases SymDepth(currL), SymDepth(currR)
  {
    if ContainsSymbols(currR) {
      RelaxDecreasesDepth(currR);
      PairsAfterIsProductTail(currL, Relax(currR), r);
      PairsAfterStepRight(currL, currR, r);
    } else if ContainsSymbols(currL) {
      RelaxDecreasesDepth(currL);
      PairsAfterIsProductTail(Relax(currL), r, r);
      PairsAfterStepLeft(currL, currR, r);
    } else {
      assert RelaxChain(currR) == [currR];
      assert RelaxChain(currL) == [currL];
    }
  }

  /**
   * The iterator's whole output: the first pair, then for each relaxation of `l` (the original `l`
   * first), every relaxation of `r` in order.
   */
  lemma IteratorOrder(l: SType, r: SType)
    ensures [(l, r)] + PairsAfter(l, r, r) == Product(RelaxChain(l), RelaxChain(r))
  {
    var tail := Product(RelaxChain(l)[1..], RelaxChain(r));
    PairsAfterIsProductTail(l, r, r);
    PairWithCons(l, RelaxChain(r));
    calc {
      [(l, r)] + PairsAfter(l, r, r);
      [(l, r)] + (PairWith(l, RelaxChain(r)[1..]) + tail);
      { ConsAssociative((l, r), PairWith(l, RelaxChain(r)[1..]), tail); }
      ([(l, r)] + PairWith(l, RelaxChain(r)[1..])) + tail;
      PairWith(l, RelaxChain(r)) + tail;
    }
  }

  /** `BoundSubstitutionIterator`: the current pair of relaxations and whether the first pair is still due. */
  class BoundSubstitutionIterator {
    var currSubForL: SType
    var currSubForR: SType
    var isFirstPair: bool
    const r: SType

    /** The pairs still to come. */
    function Remaining(): seq<(SType, SType)>
      reads this
    {
      (if isFirstPair then [(currSubForL, currSubForR)] else []) + PairsAfter(currSubForL, currSubForR, r)
    }

    constructor (l: SType, r: SType)
      ensures currSubForL == l && currSubForR == r && isFirstPair && this.r == r
      ensures Remaining() == Product(RelaxChain(l), RelaxChain(r))
    {
      currSubForL := l;
      currSubForR := r;
      isFirstPair := true;
      this.r := r;
      new;
      IteratorOrder(l, r);
    }

    /** `hasNext`: the first pair is due or one of the two still has symbols. */
    function HasNext(): (b: bool)
      reads this
      ensures b <==> Remaining() != []
    {
      isFirstPair || ContainsSymbols(currSubForL) || ContainsSymbols(currSubForR)
    }

    /** `next`: returns the head of the remaining pairs; with none left it returns the current pair again. */
    method Next() returns (p: (SType, SType))
      modifies this
      ensures old(HasNext()) ==> p == old(Remaining())[0] && Remaining() == old(Remaining())[1..]
      ensures !old(HasNext()) ==> p == (currSubForL, currSubForR) && Remaining() == old(Remaining()) == []
    {
      if isFirstPair {
        isFirstPair := false;
        return (currSubForL, currSubForR);
      }
      if ContainsSymbols(currSubForR) {
        currSubForR := Relax(currSubForR);
      } else if ContainsSymbols(currSubForL) {
        currSubForR := r;
        currSubForL := Relax(currSubForL);
      }
      p := (currSubForL, currSubForR);
    }
  }

  /** The iterator test: a symbol A bounded by [1] against itself gives (A, A), (A, [1]), ([1], A), ([1], [1]). */
  lemma IteratorExample()
    ensures var s := SymbolicShape("A", DimShape([NumericDim(1, None)], None), false, 1, None);
      var b := s.bound;
      Product(RelaxChain(s), RelaxChain(s)) == [(s, s), (s, b), (b, s), (b, b)]
  {
    var s := SymbolicShape("A", DimShape([NumericDim(1, None)], None), false, 1, None);
    var b := s.bound;
    assert ContainsSymbols(s);
    assert !ContainsSymbols(b) by {
      assert !RecursivePredicateAny(b.dims[0], IsSymbolic);
    }
    assert RelaxChain(b) == [b];
    assert RelaxChain(s) == [s, b];
    assert PairWith(s, [s, b]) == [(s, s), (s, b)];
    assert PairWith(b, [s, b]) == [(b, s), (b, b)];
    assert Product([b], [s, b]) == [(b, s), (b, b)];
    assert [s, b][1..] == [b];
  }
}
