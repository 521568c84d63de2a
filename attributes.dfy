/**
 * The least-upper-bound `union` of two STypes: related values give the larger one; otherwise dims and
 * shapes are joined structurally, symbols through their chains of bounds, and tuples componentwise.
 */
module Attributes {
  import opened Wrappers
  import opened STypes
  import opened STypeUtils
  import opened Generics
  import opened AnalysisSubtyper

  // ---------------------------------------------------------------------------------------------
  // A termination measure: a value together with everything below it, bounds included

  function Weight(t: SType): (w: nat)
    ensures w >= 1
    decreases t
  {
    match t
    case SymbolicDim(_, b, _, _, _) => 1 + Weight(b)
    case SymbolicShape(_, b, _, _, _) => 1 + Weight(b)
    case DimShape(ds, _) => 1 + WeightAll(ds)
    case NumericDim(_, _) => 1
    case WildcardDim(_) => 1
    case ErrorDim(_) => 1
    case WildcardShape(_) => 1
    case ShapeFunctionCall(_, _, _) => 1
    case ErrorShape(_) => 1
    case STypeTuple(_, _) => 1
    case ErrorUnknownClass(_) => 1
  }

  function WeightAll(ts: seq<SType>): nat
    decreases ts
  {
    if ts == [] then 0 else Weight(ts[0]) + WeightAll(ts[1..])
  }

  /** Every bound met on a chain weighs no more than the chain's start. */
  lemma {:induction false} ChainWeight(bound: SType, isShape: bool, i: nat)
    requires i < |BoundChain(bound, isShape)|
    ensures Weight(BoundChain(bound, isShape)[i]) <= Weight(bound)
    decreases bound
  {
    if i > 0 {
      ChainWeight(bound.bound, isShape, i - 1);
    }
  }

  predicate OfKind(t: SType, isShape: bool)
  {
    if isShape then IsShape(t) else IsDim(t)
  }

  /** Every bound on the chain of a well-kinded bound has the same kind and is well-kinded. */
  lemma {:induction false} ChainKeepsKind(bound: SType, isShape: bool)
    requires OfKind(bound, isShape) && WellKinded(bound)
    ensures forall i :: 0 <= i < |BoundChain(bound, isShape)| ==>
      OfKind(BoundChain(bound, isShape)[i], isShape) && WellKinded(BoundChain(bound, isShape)[i])
    decreases bound
  {
    if IsKindSymbol(bound, isShape) {
      ChainKeepsKind(bound.bound, isShape);
      var chain := BoundChain(bound, isShape);
      forall i | 1 <= i < |chain| ensures chain[i] == BoundChain(bound.bound, isShape)[i - 1] {}
    }
  }

  /** The last bound of a symbol's chain: what `allBounds().last()` returns. */
  function LastBound(s: SType): (r: SType)
    requires IsSymbolic(s)
    ensures Weight(r) < Weight(s)
  {
    var chain := BoundChain(s.bound, s.SymbolicShape?);
    ChainWeight(s.bound, s.SymbolicShape?, |chain| - 1);
    chain[|chain| - 1]
  }

  /** `firstOrNull { it in boundSet }`: the first of `candidates` equal to some member of `pool`. */
  function FirstShared(candidates: seq<SType>, pool: seq<SType>): (r: Option<nat>)
    ensures r.Some? ==> r.value < |candidates| && exists j :: 0 <= j < |pool| && SEq(candidates[r.value], pool[j])
    ensures r.Some? ==> forall i :: 0 <= i < r.value ==> forall j :: 0 <= j < |pool| ==> !SEq(candidates[i], pool[j])
    ensures r.None? ==> forall i, j :: 0 <= i < |candidates| && 0 <= j < |pool| ==> !SEq(candidates[i], pool[j])
    decreases |candidates|
  {
    if candidates == [] then None
    else if exists j :: 0 <= j < |pool| && SEq(candidates[0], pool[j]) then Some(0)
    else
      var r := FirstShared(candidates[1..], pool);
      if r.Some? then
        assert forall i :: 1 <= i < r.value + 1 ==> candidates[i] == candidates[1..][i - 1];
        Some(r.value + 1)
      else
        assert forall i :: 1 <= i < |candidates| ==> candidates[i] == candidates[1..][i - 1];
        None
  }

  // ---------------------------------------------------------------------------------------------
  // union

  /** `union`: null (None) for a shape against a dim, for other classes, and for tuples with a null component. */
  function Union(a: SType, b: SType): Option<SType>
    requires WellKinded(a) && WellKinded(b)
    decreases a
  {
    if IsSubtypeOf(a, b) then Some(b)
    else if IsSubtypeOf(b, a) then Some(a)
    else if IsShape(a) && IsShape(b) then Some(ShapeUnion(a, b))
    else if IsDim(a) && IsDim(b) then Some(DimUnion(a, b))
    else if a.STypeTuple? && b.STypeTuple? then
      var us := UnionAll(a.types, b.types);
      if us.Some? then Some(STypeTuple(us.value, None)) else None
    else None
  }

  /** The zipped componentwise unions of two tuples, None when any of them is None. */
  function UnionAll(xs: seq<SType>, ys: seq<SType>): (r: Option<seq<SType>>)
    requires forall i :: 0 <= i < |xs| ==> WellKinded(xs[i])
    requires forall i :: 0 <= i < |ys| ==> WellKinded(ys[i])
    ensures r.Some? ==> |r.value| == if |xs| < |ys| then |xs| else |ys|
    decreases xs
  {
    if xs == [] || ys == [] then Some([])
    else
      var u := Union(xs[0], ys[0]);
      var rest := UnionAll(xs[1..], ys[1..]);
      if u.Some? && rest.Some? then Some([u.value] + rest.value) else None
  }

  /** `dimUnion`. */
  function DimUnion(a: SType, b: SType): (r: SType)
    requires IsDim(a) && IsDim(b) && WellKinded(a) && WellKinded(b)
    decreases Weight(a) + Weight(b), 2
  {
    match a
    case WildcardDim(_) => DefaultWildcardDim
    case ErrorDim(_) => if IsError(b) then a else DefaultWildcardDim
    case NumericDim(_, _) =>
      (match b
       case WildcardDim(_) => DefaultWildcardDim
       case ErrorDim(_) => DefaultWildcardDim
       case NumericDim(_, _) => if SEq(a, b) then a else DefaultWildcardDim
       case SymbolicDim(_, bb, _, _, _) => DimUnion(bb, a))
    case SymbolicDim(_, ab, _, _, _) =>
      (match b
       case WildcardDim(_) => DefaultWildcardDim
       case ErrorDim(_) => DefaultWildcardDim
       case NumericDim(_, _) => DimUnion(ab, b)
       case SymbolicDim(_, _, _, _, _) => DimSymbolUnion(a, b))
  }

  /** `SymbolicDim.symbolUnion`. */
  function DimSymbolUnion(a: SType, b: SType): (r: SType)
    requires a.SymbolicDim? && b.SymbolicDim? && WellKinded(a) && WellKinded(b)
    decreases Weight(a) + Weight(b), 1
  {
    if IsSubtypeOf(a, b) then b
    else if IsSubtypeOf(b, a) then a
    else
      var boundsForOther := BoundChain(b.bound, false);
      var firstMatch := FirstShared(boundsForOther, BoundChain(a.bound, false));
      if firstMatch.Some? then boundsForOther[firstMatch.value]
      else
        ChainKeepsKind(a.bound, false);
        ChainKeepsKind(b.bound, false);
        DimUnion(LastBound(a), LastBound(b))
  }

  /** The zipped elementwise `dimUnion` of two dim lists. */
  function DimUnionAll(ds: seq<SType>, es: seq<SType>): (r: seq<SType>)
    requires forall i :: 0 <= i < |ds| ==> IsDim(ds[i]) && WellKinded(ds[i])
    requires forall i :: 0 <= i < |es| ==> IsDim(es[i]) && WellKinded(es[i])
    ensures |r| == if |ds| < |es| then |ds| else |es|
    decreases WeightAll(ds) + WeightAll(es), 3
  {
    if ds == [] || es == [] then []
    else [DimUnion(ds[0], es[0])] + DimUnionAll(ds[1..], es[1..])
  }

  /** `shapeUnion`. */
  function ShapeUnion(a: SType, b: SType): (r: SType)
    requires IsShape(a) && IsShape(b) && WellKinded(a) && WellKinded(b)
    decreases Weight(a) + Weight(b), 2
  {
    match a
    case WildcardShape(_) => DefaultWildcardShape
    case ShapeFunctionCall(_, _, _) => DefaultWildcardShape
    case ErrorShape(_) => if IsError(b) then a else DefaultWildcardShape
    case DimShape(ads, _) =>
      (match b
       case WildcardShape(_) => DefaultWildcardShape
       case ShapeFunctionCall(_, _, _) => DefaultWildcardShape
       case ErrorShape(_) => DefaultWildcardShape
       case DimShape(bds, _) => if Rank(a) == Rank(b) then DimShape(DimUnionAll(ads, bds), None) else DefaultWildcardShape
       case SymbolicShape(_, bb, _, _, _) => ShapeUnion(bb, a))
    case SymbolicShape(_, ab, _, _, _) =>
      (match b
       case WildcardShape(_) => DefaultWildcardShape
       case ShapeFunctionCall(_, _, _) => DefaultWildcardShape
       case ErrorShape(_) => DefaultWildcardShape
       case SymbolicShape(_, _, _, _, _) => ShapeSymbolUnion(a, b)
       case DimShape(_, _) => ShapeUnion(ab, b))
  }

  /** `SymbolicShape.symbolUnion`. */
  function ShapeSymbolUnion(a: SType, b: SType): (r: SType)
    requires a.SymbolicShape? && b.SymbolicShape? && WellKinded(a) && WellKinded(b)
    decreases Weight(a) + Weight(b), 1
  {
    if IsSubtypeOf(a, b) then b
    else if IsSubtypeOf(b, a) then a
    else
      var boundsForOther := BoundChain(b.bound, true);
      var firstMatch := FirstShared(boundsForOther, BoundChain(a.bound, true));
      if firstMatch.Some? then boundsForOther[firstMatch.value]
      else
        ChainKeepsKind(a.bound, true);
        ChainKeepsKind(b.bound, true);
        ShapeUnion(LastBound(a), LastBound(b))
  }

  // ---------------------------------------------------------------------------------------------
  // Properties

  /** Related values: the larger one is the union. In particular the union of an error-free value with itself is that value. */
  lemma UnionOfRelated(a: SType, b: SType)
    requires WellKinded(a) && WellKinded(b)
    ensures IsSubtypeOf(a, b) ==> Union(a, b) == Some(b)
    ensures !IsSubtypeOf(a, b) && IsSubtypeOf(b, a) ==> Union(a, b) == Some(a)
    ensures a == b && !ContainsErrors(a) ==> Union(a, b) == Some(a)
  {
    if a == b && !ContainsErrors(a) {
      SubtypeReflexive(a);
    }
  }

  /** A shape and a dim have no union. */
  lemma ShapeAndDimHaveNoUnion(a: SType, b: SType)
    requires WellKinded(a) && WellKinded(b)
    requires (IsShape(a) && IsDim(b)) || (IsDim(a) && IsShape(b))
    ensures Union(a, b) == None
  {
    if SEq(a, b) {
      SEqSameClass(a, b);
    }
    if SEq(b, a) {
      SEqSameClass(b, a);
    }
    assert Subtype(a, b) == NOTSUBTYPE;
    assert Subtype(b, a) == NOTSUBTYPE;
  }


  /** Unequal numeric dims join to the wildcard dim. */
  lemma UnequalNumericDims(v: int, w: int, e1: Option<STypeException>, e2: Option<STypeException>)
    requires v != w
    ensures Union(NumericDim(v, e1), NumericDim(w, e2)) == Some(DefaultWildcardDim)
  {
    NumericDimRules(v, w, e1, e2);
    NumericDimRules(w, v, e2, e1);
  }

  /** Two errors of one kind keep the left one; an error against a non-error of its kind gives the wildcard. */
  lemma ErrorUnions(a: SType, b: SType)
    requires WellKinded(a) && WellKinded(b) && (IsError(a) || IsError(b))
    requires (IsDim(a) && IsDim(b)) || (IsShape(a) && IsShape(b))
    ensures IsError(a) && IsError(b) ==> Union(a, b) == Some(a)
    ensures IsError(a) != IsError(b) ==> Union(a, b) == Some(if IsDim(a) then DefaultWildcardDim else DefaultWildcardShape)
  {
    if IsError(a) {
      ErrorIsSubtypeOfNothing(a, b);
    } else {
      assert !SEq(b, a);
      assert Subtype(a, b) == NOTSUBTYPE;
    }
    if IsError(b) {
      ErrorIsSubtypeOfNothing(b, a);
    } else {
      assert !SEq(a, b);
      assert Subtype(b, a) == NOTSUBTYPE;
    }
  }

  /** For unrelated shapes, a wildcard or a shape function call on either side (and no error) gives the wildcard. */
  lemma UnrelatedWildcardOrCall(a: SType, b: SType)
    requires WellKinded(a) && WellKinded(b) && IsShape(a) && IsShape(b) && !IsError(a) && !IsError(b)
    requires !IsSubtypeOf(a, b) && !IsSubtypeOf(b, a)
    requires a.WildcardShape? || a.ShapeFunctionCall? || b.WildcardShape? || b.ShapeFunctionCall?
    ensures Union(a, b) == Some(DefaultWildcardShape)
  {
  }

  // -- join is an upper bound --------------------------------------------------------------------

  /** No error (not even in an `error` field) and no shape function call anywhere, bounds included. */
  predicate Plain(t: SType)
    decreases t
  {
    Error(t) == None && !t.ShapeFunctionCall? &&
    match t
    case SymbolicDim(_, b, _, _, _) => Plain(b)
    case SymbolicShape(_, b, _, _, _) => Plain(b)
    case DimShape(ds, _) => forall i :: 0 <= i < |ds| ==> Plain(ds[i])
    case STypeTuple(ts, _) => forall i :: 0 <= i < |ts| ==> Plain(ts[i])
    case NumericDim(_, _) => true
    case WildcardDim(_) => true
    case ErrorDim(_) => true
    case WildcardShape(_) => true
    case ShapeFunctionCall(_, _, _) => true
    case ErrorShape(_) => true
    case ErrorUnknownClass(_) => true
  }

  lemma {:induction false} PlainHasNoErrors(t: SType)
    requires Plain(t)
    ensures !ContainsErrors(t)
    decreases t
  {
    forall i | 0 <= i < |Children(t)| ensures !ContainsErrors(Children(t)[i]) {
      PlainHasNoErrors(Children(t)[i]);
    }
    ContainsErrorsIff(t);
  }

  lemma ContainsErrorsIff(t: SType)
    ensures ContainsErrors(t) <==> IsError(t) || exists i :: 0 <= i < |Children(t)| && ContainsErrors(Children(t)[i])
  {
    match t
    case DimShape(ds, _) => assert Children(t) == ds;
    case ShapeFunctionCall(_, args, _) => assert Children(t) == args;
    case STypeTuple(ts, _) => assert Children(t) == ts;
    case NumericDim(_, _) =>
    case SymbolicDim(_, _, _, _, _) =>
    case WildcardDim(_) =>
    case ErrorDim(_) =>
    case SymbolicShape(_, _, _, _, _) =>
    case WildcardShape(_) =>
    case ErrorShape(_) =>
    case ErrorUnknownClass(_) =>
  }

  /** Every bound on the chain of a plain bound is plain. */
  lemma {:induction false} ChainPlain(bound: SType, isShape: bool)
    requires Plain(bound)
    ensures forall i :: 0 <= i < |BoundChain(bound, isShape)| ==> Plain(BoundChain(bound, isShape)[i])
    decreases bound
  {
    if IsKindSymbol(bound, isShape) {
      ChainPlain(bound.bound, isShape);
      var chain := BoundChain(bound, isShape);
      forall i | 1 <= i < |chain| ensures chain[i] == BoundChain(bound.bound, isShape)[i - 1] {}
    }
  }

  /** The bound walk answers as soon as some bound on the chain is a subtype of `x`. */
  lemma {:induction false} WalkReachesChain(bound: SType, strictStatus: bool, x: SType, isShape: bool, i: nat)
    requires i < |BoundChain(bound, isShape)|
    requires Subtype(BoundChain(bound, isShape)[i], x) != NOTSUBTYPE
    ensures WalkBounds(bound, strictStatus, x, isShape) != NOTSUBTYPE
    decreases bound
  {
    if i > 0 {
      assert BoundChain(bound, isShape)[i] == BoundChain(bound.bound, isShape)[i - 1];
      WalkReachesChain(bound.bound, bound.isStrictBound, x, isShape, i - 1);
    }
  }

  /** Against a non-error value of its kind other than a call, a symbol answers by walking its bounds. */
  lemma SymbolSubtypeWalks(s: SType, x: SType)
    requires IsSymbolic(s) && OfKind(x, s.SymbolicShape?) && !IsError(x) && !x.ShapeFunctionCall?
    requires WalkBounds(s.bound, s.isStrictBound, x, s.SymbolicShape?) != NOTSUBTYPE
    ensures IsSubtypeOf(s, x)
  {
  }

  /** A symbol is below every plain value of its kind that some bound on its chain is below. */
  lemma SymbolBelowViaChain(s: SType, x: SType, i: nat)
    requires IsSymbolic(s) && Plain(x) && OfKind(x, s.SymbolicShape?)
    requires i < |BoundChain(s.bound, s.SymbolicShape?)|
    requires Subtype(BoundChain(s.bound, s.SymbolicShape?)[i], x) != NOTSUBTYPE
    ensures IsSubtypeOf(s, x)
  {
    WalkReachesChain(s.bound, s.isStrictBound, x, s.SymbolicShape?, i);
    SymbolSubtypeWalks(s, x);
  }

  /** Every plain value is a subtype of itself. */
  lemma PlainReflexive(t: SType)
    requires Plain(t)
    ensures IsSubtypeOf(t, t)
  {
    PlainHasNoErrors(t);
    SubtypeReflexive(t);
  }

  /** The unnamed wildcard dim is above every plain dim. */
  lemma {:induction false} PlainDimBelowWildcard(a: SType)
    requires IsDim(a) && WellKinded(a) && Plain(a)
    ensures IsSubtypeOf(a, DefaultWildcardDim)
    decreases a
  {
    if a.SymbolicDim? {
      PlainDimBelowWildcard(a.bound);
      SymbolBelowViaChain(a, DefaultWildcardDim, 0);
    }
  }

  /** The unnamed wildcard shape is above every plain shape. */
  lemma {:induction false} PlainShapeBelowWildcard(a: SType)
    requires IsShape(a) && WellKinded(a) && Plain(a)
    ensures IsSubtypeOf(a, DefaultWildcardShape)
    decreases a
  {
    if a.SymbolicShape? {
      PlainShapeBelowWildcard(a.bound);
      SymbolBelowViaChain(a, DefaultWildcardShape, 0);
    }
  }

  /** The facts the upper-bound lemmas promise about a join `r` of `a` and `b`. */
  predicate UpperBound(a: SType, b: SType, r: SType, isShape: bool)
  {
    OfKind(r, isShape) && WellKinded(r) && Plain(r) && IsSubtypeOf(a, r) && IsSubtypeOf(b, r)
  }

  /** `dimUnion` of plain dims is above both. */
  lemma {:induction false} DimUnionUpperBound(a: SType, b: SType)
    requires IsDim(a) && IsDim(b) && WellKinded(a) && WellKinded(b) && Plain(a) && Plain(b)
    ensures UpperBound(a, b, DimUnion(a, b), false)
    decreases Weight(a) + Weight(b), 2
  {
    var r := DimUnion(a, b);
    match a
    case WildcardDim(_) =>
      PlainReflexive(a);
      PlainDimBelowWildcard(b);
    case NumericDim(_, _) =>
      if b.NumericDim? && SEq(a, b) {
        PlainReflexive(a);
        SEqSymmetric(a, b);
      } else if b.SymbolicDim? {
        DimUnionUpperBound(b.bound, a);
        SymbolBelowViaChain(b, r, 0);
      } else {
        PlainDimBelowWildcard(a);
        PlainDimBelowWildcard(b);
      }
    case SymbolicDim(_, _, _, _, _) =>
      if b.NumericDim? {
        DimUnionUpperBound(a.bound, b);
        SymbolBelowViaChain(a, r, 0);
      } else if b.SymbolicDim? {
        DimSymbolUnionUpperBound(a, b);
      } else {
        PlainDimBelowWildcard(a);
        PlainDimBelowWildcard(b);
      }
  }

  /** `SymbolicDim.symbolUnion` of plain symbols is above both. */
  lemma {:induction false} DimSymbolUnionUpperBound(a: SType, b: SType)
    requires a.SymbolicDim? && b.SymbolicDim? && WellKinded(a) && WellKinded(b) && Plain(a) && Plain(b)
    ensures UpperBound(a, b, DimSymbolUnion(a, b), false)
    decreases Weight(a) + Weight(b), 1
  {
    ChainFacts(a, b, false);
    if IsSubtypeOf(a, b) {
      PlainReflexive(b);
    } else if IsSubtypeOf(b, a) {
      PlainReflexive(a);
    } else {
      var firstMatch := FirstShared(BoundChain(b.bound, false), BoundChain(a.bound, false));
      if firstMatch.Some? {
        SharedBoundIsUpperBound(a, b, false, firstMatch.value);
      } else {
        DimUnionUpperBound(LastBound(a), LastBound(b));
        LastBoundsJoinIsUpperBound(a, b, false, DimUnion(LastBound(a), LastBound(b)));
      }
    }
  }

  /** `SymbolicShape.symbolUnion` of plain symbols is above both. */
  lemma {:induction false} ShapeSymbolUnionUpperBound(a: SType, b: SType)
    requires a.SymbolicShape? && b.SymbolicShape? && WellKinded(a) && WellKinded(b) && Plain(a) && Plain(b)
    ensures UpperBound(a, b, ShapeSymbolUnion(a, b), true)
    decreases Weight(a) + Weight(b), 1
  {
    ChainFacts(a, b, true);
    if IsSubtypeOf(a, b) {
      PlainReflexive(b);
    } else if IsSubtypeOf(b, a) {
      PlainReflexive(a);
    } else {
      var firstMatch := FirstShared(BoundChain(b.bound, true), BoundChain(a.bound, true));
      if firstMatch.Some? {
        SharedBoundIsUpperBound(a, b, true, firstMatch.value);
      } else {
        ShapeUnionUpperBound(LastBound(a), LastBound(b));
        LastBoundsJoinIsUpperBound(a, b, true, ShapeUnion(LastBound(a), LastBound(b)));
      }
    }
  }

  /** Both chains keep the kind and stay plain and well-kinded. */
  lemma ChainFacts(a: SType, b: SType, isShape: bool)
    requires IsKindSymbol(a, isShape) && IsKindSymbol(b, isShape) && WellKinded(a) && WellKinded(b) && Plain(a) && Plain(b)
    ensures forall i :: 0 <= i < |BoundChain(a.bound, isShape)| ==>
      OfKind(BoundChain(a.bound, isShape)[i], isShape) && WellKinded(BoundChain(a.bound, isShape)[i]) && Plain(BoundChain(a.bound, isShape)[i])
    ensures forall i :: 0 <= i < |BoundChain(b.bound, isShape)| ==>
      OfKind(BoundChain(b.bound, isShape)[i], isShape) && WellKinded(BoundChain(b.bound, isShape)[i]) && Plain(BoundChain(b.bound, isShape)[i])
  {
    ChainKeepsKind(a.bound, isShape);
    ChainKeepsKind(b.bound, isShape);
    ChainPlain(a.bound, isShape);
    ChainPlain(b.bound, isShape);
  }

  /** A bound on `b`'s chain equal to one on `a`'s chain is above both symbols. */
  lemma SharedBoundIsUpperBound(a: SType, b: SType, isShape: bool, k: nat)
    requires IsKindSymbol(a, isShape) && IsKindSymbol(b, isShape) && WellKinded(a) && WellKinded(b) && Plain(a) && Plain(b)
    requires k < |BoundChain(b.bound, isShape)|
    requires exists j :: 0 <= j < |BoundChain(a.bound, isShape)| && SEq(BoundChain(b.bound, isShape)[k], BoundChain(a.bound, isShape)[j])
    ensures UpperBound(a, b, BoundChain(b.bound, isShape)[k], isShape)
  {
    var m := BoundChain(b.bound, isShape)[k];
    ChainElementFacts(b, isShape, k);
    var j :| 0 <= j < |BoundChain(a.bound, isShape)| && SEq(m, BoundChain(a.bound, isShape)[j]);
    ChainElementFacts(a, isShape, j);
    PlainReflexive(m);
    SymbolBelowViaChain(b, m, k);
    EqualToChainElementIsAbove(a, m, isShape, j);
  }

  /** A bound on the chain of a plain, well-kinded symbol keeps its kind and is plain and well-kinded. */
  lemma ChainElementFacts(s: SType, isShape: bool, k: nat)
    requires IsKindSymbol(s, isShape) && WellKinded(s) && Plain(s) && k < |BoundChain(s.bound, isShape)|
    ensures var c := BoundChain(s.bound, isShape)[k]; OfKind(c, isShape) && WellKinded(c) && Plain(c)
  {
    ChainKeepsKind(s.bound, isShape);
    ChainPlain(s.bound, isShape);
  }

  /** A plain value equal (by `SEq`) to a bound on a plain symbol's chain is above that symbol. */
  lemma EqualToChainElementIsAbove(s: SType, m: SType, isShape: bool, j: nat)
    requires IsKindSymbol(s, isShape) && Plain(m) && OfKind(m, isShape)
    requires j < |BoundChain(s.bound, isShape)| && Plain(BoundChain(s.bound, isShape)[j])
    requires SEq(m, BoundChain(s.bound, isShape)[j])
    ensures IsSubtypeOf(s, m)
  {
    var c := BoundChain(s.bound, isShape)[j];
    PlainHasNoErrors(c);
    SEqSameClass(m, c);
    assert Subtype(c, m) == SUBTYPE;
    SymbolBelowViaChain(s, m, j);
  }

  /** An upper bound of the last bounds of two chains is above both symbols. */
  lemma LastBoundsJoinIsUpperBound(a: SType, b: SType, isShape: bool, r: SType)
    requires IsKindSymbol(a, isShape) && IsKindSymbol(b, isShape)
    requires UpperBound(LastBound(a), LastBound(b), r, isShape)
    ensures UpperBound(a, b, r, isShape)
  {
    SymbolBelowViaChain(a, r, |BoundChain(a.bound, isShape)| - 1);
    SymbolBelowViaChain(b, r, |BoundChain(b.bound, isShape)| - 1);
  }

  /** The elementwise `dimUnion` of plain dims is above both, position by position. */
  lemma {:induction false} DimUnionAllUpperBound(ds: seq<SType>, es: seq<SType>)
    requires forall i :: 0 <= i < |ds| ==> IsDim(ds[i]) && WellKinded(ds[i]) && Plain(ds[i])
    requires forall i :: 0 <= i < |es| ==> IsDim(es[i]) && WellKinded(es[i]) && Plain(es[i])
    ensures forall i :: 0 <= i < |DimUnionAll(ds, es)| ==> UpperBound(ds[i], es[i], DimUnionAll(ds, es)[i], false)
    decreases WeightAll(ds) + WeightAll(es), 3
  {
    if ds != [] && es != [] {
      var ds', es' := ds[1..], es[1..];
      var rest := DimUnionAll(ds', es');
      var r := DimUnionAll(ds, es);
      assert r == [DimUnion(ds[0], es[0])] + rest;
      DimUnionUpperBound(ds[0], es[0]);
      DimUnionAllUpperBound(ds', es');
      forall i | 1 <= i < |r| ensures UpperBound(ds[i], es[i], r[i], false) {
        assert ds[i] == ds'[i - 1] && es[i] == es'[i - 1] && r[i] == rest[i - 1];
      }
    }
  }

  /** `shapeUnion` of plain shapes is above both. */
  lemma {:induction false} ShapeUnionUpperBound(a: SType, b: SType)
    requires IsShape(a) && IsShape(b) && WellKinded(a) && WellKinded(b) && Plain(a) && Plain(b)
    ensures UpperBound(a, b, ShapeUnion(a, b), true)
    decreases Weight(a) + Weight(b), 2
  {
    var r := ShapeUnion(a, b);
    match a
    case WildcardShape(_) =>
      PlainShapeBelowWildcard(a);
      PlainShapeBelowWildcard(b);
    case DimShape(ads, _) =>
      if b.DimShape? && Rank(a) == Rank(b) {
        DimUnionAllUpperBound(ads, b.dims);
        var us := DimUnionAll(ads, b.dims);
        assert r == DimShape(us, None);
        ListSubtypeCharacterization(ads, us);
        ListSubtypeCharacterization(b.dims, us);
        assert Subtype(a, r) != NOTSUBTYPE;
        assert Subtype(b, r) != NOTSUBTYPE;
      } else if b.SymbolicShape? {
        ShapeUnionUpperBound(b.bound, a);
        SymbolBelowViaChain(b, r, 0);
      } else {
        PlainShapeBelowWildcard(a);
        PlainShapeBelowWildcard(b);
      }
    case SymbolicShape(_, _, _, _, _) =>
      if b.DimShape? {
        ShapeUnionUpperBound(a.bound, b);
        SymbolBelowViaChain(a, r, 0);
      } else if b.SymbolicShape? {
        ShapeSymbolUnionUpperBound(a, b);
      } else {
        PlainShapeBelowWildcard(a);
        PlainShapeBelowWildcard(b);
      }
  }

  /**
   * `union` is an upper bound: for plain dims and shapes (no errors, no shape function calls, no tuples)
   * it exists exactly when both have one kind, and then both are subtypes of it.
   */
  lemma UnionIsUpperBound(a: SType, b: SType)
    requires WellKinded(a) && WellKinded(b) && Plain(a) && Plain(b) && !a.STypeTuple? && !b.STypeTuple?
    ensures Union(a, b).Some? <==> IsShape(a) == IsShape(b)
    ensures Union(a, b).Some? ==> IsSubtypeOf(a, Union(a, b).value) && IsSubtypeOf(b, Union(a, b).value)
  {
    if IsShape(a) != IsShape(b) {
      ShapeAndDimHaveNoUnion(a, b);
    }
    if IsSubtypeOf(a, b) {
      PlainReflexive(b);
    } else if IsSubtypeOf(b, a) {
      PlainReflexive(a);
    } else if IsShape(a) && IsShape(b) {
      ShapeUnionUpperBound(a, b);
    } else if IsDim(a) && IsDim(b) {
      DimUnionUpperBound(a, b);
    }
  }

  // ---------------------------------------------------------------------------------------------
  // Examples (AttributeOperationsTest)

  /** A shape symbol with a non-strict bound in scope 0 (`basicShapeSymbol`). */
  function ShapeSym(name: string, bound: SType): (s: SType)
    ensures s.SymbolicShape? && s.symbol == name && s.bound == bound && !s.isStrictBound
    ensures IsShape(bound) && WellKinded(bound) ==> WellKinded(s)
  {
    SymbolicShape(name, bound, false, 0, None)
  }

  /** A dim symbol bounded by the wildcard dim in scope 0 (`basicDimSymbol`). */
  function DimSym(name: string): (s: SType)
    ensures s.SymbolicDim? && s.symbol == name && s.bound == DefaultWildcardDim && WellKinded(s)
  {
    SymbolicDim(name, DefaultWildcardDim, false, 0, None)
  }

  /** The dim shape [d, 2]. */
  function DimThenTwo(d: SType): (s: SType)
    ensures s.DimShape? && s.dims == [d, NumericDim(2, None)]
    ensures IsDim(d) && WellKinded(d) ==> WellKinded(s)
  {
    DimShape([d, NumericDim(2, None)], None)
  }

  /** Two unrelated symbols with wildcard bounds share only the wildcard. */
  lemma DisjointSymbolsUnion()
    ensures Union(ShapeSym("A", DefaultWildcardShape), ShapeSym("B", DefaultWildcardShape)) == Some(DefaultWildcardShape)
  {
    var a, b := ShapeSym("A", DefaultWildcardShape), ShapeSym("B", DefaultWildcardShape);
    assert Subtype(a, b) == NOTSUBTYPE;
    assert Subtype(b, a) == NOTSUBTYPE;
    assert BoundChain(a.bound, true) == [DefaultWildcardShape];
    assert FirstShared([DefaultWildcardShape], [DefaultWildcardShape]) == Some(0);
  }

  lemma SameSymbolUnion()
    ensures Union(ShapeSym("A", DefaultWildcardShape), ShapeSym("A", DefaultWildcardShape)) == Some(ShapeSym("A", DefaultWildcardShape))
  {
    UnionOfRelated(ShapeSym("A", DefaultWildcardShape), ShapeSym("A", DefaultWildcardShape));
  }

  /** A symbol joined with a symbol bounded by it gives the former. */
  lemma SubtypeSymbolUnion(x: string, y: string)
    requires x != y
    ensures var a := ShapeSym(x, DefaultWildcardShape);
      Union(a, ShapeSym(y, a)) == Some(a)
  {
    var a := ShapeSym(x, DefaultWildcardShape);
    var b := ShapeSym(y, a);
    assert BoundChain(a.bound, true) == [DefaultWildcardShape];
    assert BoundChain(b.bound, true) == [a, DefaultWildcardShape];
    SymbolBelowSymbol(a, b);
    SymbolBelowSymbol(b, a);
    assert [a, DefaultWildcardShape][0] == a;
    assert Subtype(a, b) == NOTSUBTYPE;
    assert Subtype(b, a) != NOTSUBTYPE;
  }

  lemma SharedSupertypeUnion()
    ensures var a := ShapeSym("A", DefaultWildcardShape);
      Union(ShapeSym("C", ShapeSym("B", a)), ShapeSym("D", a)) == Some(a)
  {
    var a := ShapeSym("A", DefaultWildcardShape);
    var b := ShapeSym("B", a);
    var c, d := ShapeSym("C", b), ShapeSym("D", a);
    assert BoundChain(d.bound, true) == [a, DefaultWildcardShape];
    assert BoundChain(c.bound, true) == [b, a, DefaultWildcardShape];
    SymbolBelowSymbol(c, d);
    SymbolBelowSymbol(d, c);
    assert !IsSubtypeOf(c, d);
    assert !IsSubtypeOf(d, c);
    assert SEq(a, [b, a, DefaultWildcardShape][1]);
    assert FirstShared([a, DefaultWildcardShape], [b, a, DefaultWildcardShape]) == Some(0);
    assert ShapeSymbolUnion(c, d) == a;
  }

  /** The dim shapes [A, 2] and [B, 2] (A, B unrelated dim symbols) join to [_, 2]. */
  lemma DimShapeUnion(x: string, y: string)
    requires x != y
    ensures var s1, s2 := DimThenTwo(DimSym(x)), DimThenTwo(DimSym(y));
      Subtype(s1, s2) == NOTSUBTYPE && Subtype(s2, s1) == NOTSUBTYPE &&
      Union(s1, s2) == Some(DimThenTwo(DefaultWildcardDim))
  {
    var s1, s2 := DimThenTwo(DimSym(x)), DimThenTwo(DimSym(y));
    SymbolsJoinToWildcard(x, y);
    SymbolsJoinToWildcard(y, x);
    ListSubtypeCharacterization(s1.dims, s2.dims);
    ListSubtypeCharacterization(s2.dims, s1.dims);
    assert s1.dims[0] == DimSym(x) && s2.dims[0] == DimSym(y);
    assert !SEq(s1.dims[0], s2.dims[0]) && !SEq(s2.dims[0], s1.dims[0]);
    ListEqIff(s1.dims, s2.dims);
    ListEqIff(s2.dims, s1.dims);
    assert !SEq(s2, s1) && !SEq(s1, s2);
    assert Subtype(s1, s2) == NOTSUBTYPE;
    assert Subtype(s2, s1) == NOTSUBTYPE;
    var two := NumericDim(2, None);
    assert s1.dims[1..] == [two] && s2.dims[1..] == [two];
    assert DimUnion(two, two) == two;
    assert DimUnionAll([two], [two]) == [two];
    assert DimUnionAll(s1.dims, s2.dims) == [DefaultWildcardDim, two];
  }

  /** Two different dim symbols with wildcard bounds are unrelated and join to the wildcard dim. */
  lemma SymbolsJoinToWildcard(x: string, y: string)
    requires x != y
    ensures Subtype(DimSym(x), DimSym(y)) == NOTSUBTYPE
    ensures DimUnion(DimSym(x), DimSym(y)) == DefaultWildcardDim
  {
    var a, b := DimSym(x), DimSym(y);
    assert Subtype(DefaultWildcardDim, b) == NOTSUBTYPE && Subtype(DefaultWildcardDim, a) == NOTSUBTYPE;
    assert WalkBounds(DefaultWildcardDim, false, b, false) == NOTSUBTYPE;
    assert WalkBounds(DefaultWildcardDim, false, a, false) == NOTSUBTYPE;
    assert !SEq(b, a) && !SEq(a, b);
    AnalysisSubtyper.SymbolAgainstSymbol(a, b, false);
    AnalysisSubtyper.SymbolAgainstSymbol(b, a, false);
    assert BoundChain(b.bound, false) == [DefaultWildcardDim];
    assert FirstShared([DefaultWildcardDim], [DefaultWildcardDim]) == Some(0);
  }

  /** Tuples join componentwise: ([S1, 2], A) and ([S2, 2], B <: A) give ([_, 2], A). */
  lemma TupleUnion(s1: string, s2: string, x: string, y: string)
    requires s1 != s2 && x != y
    ensures var a := ShapeSym(x, DefaultWildcardShape);
      Union(Pair(DimThenTwo(DimSym(s1)), a), Pair(DimThenTwo(DimSym(s2)), ShapeSym(y, a))) == Some(Pair(DimThenTwo(DefaultWildcardDim), a))
  {
    var a := ShapeSym(x, DefaultWildcardShape);
    DimShapeUnion(s1, s2);
    SubtypeSymbolUnion(x, y);
    PairUnion(DimThenTwo(DimSym(s1)), a, DimThenTwo(DimSym(s2)), ShapeSym(y, a), DimThenTwo(DefaultWildcardDim), a);
  }

  /** The tuple of two values, well-kinded when they are. */
  function Pair(x: SType, y: SType): (t: SType)
    ensures t.STypeTuple? && t.types == [x, y] && t.err == None
    ensures WellKinded(x) && WellKinded(y) ==> WellKinded(t)
  {
    STypeTuple([x, y], None)
  }

  /** Two pairs whose first components are unrelated join componentwise. */
  lemma PairUnion(x1: SType, x2: SType, y1: SType, y2: SType, u1: SType, u2: SType)
    requires WellKinded(x1) && WellKinded(x2) && WellKinded(y1) && WellKinded(y2)
    requires Subtype(x1, y1) == NOTSUBTYPE && Subtype(y1, x1) == NOTSUBTYPE
    requires Union(x1, y1) == Some(u1) && Union(x2, y2) == Some(u2)
    ensures Union(Pair(x1, x2), Pair(y1, y2)) == Some(Pair(u1, u2))
  {
    var t1, t2 := STypeTuple([x1, x2], None), STypeTuple([y1, y2], None);
    ListSubtypeCharacterization(t1.types, t2.types);
    ListSubtypeCharacterization(t2.types, t1.types);
    assert t1.types[0] == x1 && t2.types[0] == y1;
    assert Subtype(t1, t2) == NOTSUBTYPE && Subtype(t2, t1) == NOTSUBTYPE;
    assert t1.types[1..] == [x2] && t2.types[1..] == [y2];
    UnionAllSingle(x2, y2, u2);
    UnionAllCons(x1, [x2], y1, [y2], u1, [u2]);
    assert [x1] + [x2] == [x1, x2] && [y1] + [y2] == [y1, y2] && [u1] + [u2] == [u1, u2];
  }

  lemma UnionAllSingle(x: SType, y: SType, u: SType)
    requires WellKinded(x) && WellKinded(y) && Union(x, y) == Some(u)
    ensures UnionAll([x], [y]) == Some([u])
  {
    assert [x][1..] == [] && [y][1..] == [];
    assert UnionAll([], []) == Some([]);
    AppendEmpty([u]);
  }

  lemma UnionAllCons(x: SType, xs: seq<SType>, y: SType, ys: seq<SType>, u: SType, us: seq<SType>)
    requires WellKinded(x) && WellKinded(y) && Union(x, y) == Some(u)
    requires forall i :: 0 <= i < |xs| ==> WellKinded(xs[i])
    requires forall i :: 0 <= i < |ys| ==> WellKinded(ys[i])
    requires UnionAll(xs, ys) == Some(us)
    ensures UnionAll([x] + xs, [y] + ys) == Some([u] + us)
  {
    var xs', ys' := [x] + xs, [y] + ys;
    assert xs'[0] == x && ys'[0] == y;
    assert xs'[1..] == xs && ys'[1..] == ys;
    assert xs' != [] && ys' != [];
  }
}
