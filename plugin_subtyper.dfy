/**
 * The subtyping relation of the compiler plugin (`STypeSubtyper` in `shapeTyping.plugin.analysis`): the same
 * case structure as the analysis library's relation, but every rule takes a `strict` flag. Outside strict mode
 * nothing is ever a strict subtype and the wildcards are tops; in strict mode the bound walk never records a
 * strict link, so a bound that is merely a subtype does not make its symbol one.
 */
module PluginSubtyper {
  import opened Wrappers
  import opened STypes
  import opened STypeUtils
  import opened Generics
  import AnalysisSubtyper

  datatype SubtypeResult = SUBTYPE | STRICTSUBTYPE | NOTSUBTYPE

  /** `isSubtypeOf`: the non-strict relation answers SUBTYPE. */
  predicate IsSubtypeOf(a: SType, b: SType)
  {
    Subtype(a, b, false) == SUBTYPE
  }

  /** `isStrictSubtypeOf`: the strict relation answers STRICTSUBTYPE. */
  predicate IsStrictSubtypeOf(a: SType, b: SType)
  {
    Subtype(a, b, true) == STRICTSUBTYPE
  }

  /** `SType.subtype(other, strict)`: dispatch on the class of the left value. */
  function Subtype(a: SType, b: SType, strict: bool): SubtypeResult
    decreases a, 3
  {
    if IsShape(a) then ShapeSubtype(a, b, strict)
    else if IsDim(a) then DimSubtype(a, b, strict)
    else if a.STypeTuple? then (if b.STypeTuple? then ListSubtype(a.types, b.types, strict) else NOTSUBTYPE)
    else NOTSUBTYPE
  }

  /** `Dim.subtype(other, strict)`; the equality test is `b.equals(a)`. */
  function DimSubtype(a: SType, b: SType, strict: bool): SubtypeResult
    requires IsDim(a)
    decreases a, 2
  {
    if a.ErrorDim? then NOTSUBTYPE
    else if SEq(b, a) then SUBTYPE
    else if b.WildcardDim? then
      (if !strict then SUBTYPE
       else if a.SymbolicDim? then WalkBounds(a.bound, false, b, false, true)
       else if a.NumericDim? then STRICTSUBTYPE
       else NOTSUBTYPE)
    else if b.SymbolicDim? then
      (if a.SymbolicDim? then WalkBounds(a.bound, false, b, false, strict) else NOTSUBTYPE)
    else if b.NumericDim? then
      (if a.NumericDim? then (if a.value == b.value then SUBTYPE else NOTSUBTYPE)
       else if a.SymbolicDim? then WalkBounds(a.bound, false, b, false, strict)
       else NOTSUBTYPE)
    else NOTSUBTYPE
  }

  /** `Shape.subtype(other, strict)`. */
  function ShapeSubtype(a: SType, b: SType, strict: bool): SubtypeResult
    requires IsShape(a)
    decreases a, 2
  {
    if a.ErrorShape? then NOTSUBTYPE
    else if SEq(b, a) then SUBTYPE
    else if b.WildcardShape? then
      (if !strict then SUBTYPE
       else if a.SymbolicShape? then WalkBounds(a.bound, false, b, true, strict)
       else if a.DimShape? then STRICTSUBTYPE
       else if a.ShapeFunctionCall? then SUBTYPE
       else NOTSUBTYPE)
    else if b.SymbolicShape? then
      (if a.SymbolicShape? then WalkBounds(a.bound, false, b, true, strict) else NOTSUBTYPE)
    else if b.DimShape? then
      (if a.DimShape? then ListSubtype(a.dims, b.dims, strict)
       else if a.SymbolicShape? then WalkBounds(a.bound, false, b, true, strict)
       else NOTSUBTYPE)
    else NOTSUBTYPE
  }

  /**
   * `stepSubtypeTest`: outside strict mode any positive answer becomes SUBTYPE; in strict mode a strict answer
   * stays strict and a plain SUBTYPE needs a strict link.
   */
  function StepSubtypeTest(bound: SType, strictStatus: bool, other: SType, strict: bool): (r: SubtypeResult)
    ensures Subtype(bound, other, strict) == NOTSUBTYPE ==> r == NOTSUBTYPE
    ensures !strict ==> (r == SUBTYPE <==> Subtype(bound, other, strict) != NOTSUBTYPE) && r != STRICTSUBTYPE
    ensures strict && !strictStatus ==> (r == STRICTSUBTYPE <==> Subtype(bound, other, strict) == STRICTSUBTYPE) && r != SUBTYPE
    decreases bound, 4
  {
    match Subtype(bound, other, strict)
    case STRICTSUBTYPE => if strict then STRICTSUBTYPE else SUBTYPE
    case SUBTYPE => if !strict then SUBTYPE else if strictStatus then STRICTSUBTYPE else NOTSUBTYPE
    case NOTSUBTYPE => NOTSUBTYPE
  }

  /**
   * The specification of the `upperBoundedBy` loop. The update of `strictStatus` is commented out in the
   * source, so the status the walk starts with (always false) is kept to the end.
   */
  function WalkBounds(bound: SType, strictStatus: bool, other: SType, isShape: bool, strict: bool): SubtypeResult
    decreases bound, 5
  {
    if IsKindSymbol(bound, isShape) then
      var step := StepSubtypeTest(bound, strictStatus, other, strict);
      if step != NOTSUBTYPE then step else WalkBounds(bound.bound, strictStatus, other, isShape, strict)
    else StepSubtypeTest(bound, strictStatus, other, strict)
  }

  /** `SymbolicDim.upperBoundedBy` and `SymbolicShape.upperBoundedBy`: the loop over the chain of bounds. */
  method UpperBoundedBy(a: SType, other: SType, strict: bool) returns (r: SubtypeResult)
    requires IsSymbolic(a)
    ensures r == WalkBounds(a.bound, false, other, a.SymbolicShape?, strict)
  {
    var isShape := a.SymbolicShape?;
    var currentUpperBound := a.bound;
    var strictStatus := false;
    while IsKindSymbol(currentUpperBound, isShape)
      invariant WalkBounds(currentUpperBound, strictStatus, other, isShape, strict) == WalkBounds(a.bound, false, other, isShape, strict)
      decreases currentUpperBound
    {
      var step := StepSubtypeTest(currentUpperBound, strictStatus, other, strict);
      if step != NOTSUBTYPE {
        return step;
      }
      currentUpperBound := currentUpperBound.bound;
    }
    r := StepSubtypeTest(currentUpperBound, strictStatus, other, strict);
  }

  /** `List<SType>.subtype(other, strict)`. */
  function ListSubtype(xs: seq<SType>, ys: seq<SType>, strict: bool): SubtypeResult
    decreases xs, 1
  {
    if |xs| != |ys| then NOTSUBTYPE else ListSubtypeFrom(xs, ys, 0, false, strict)
  }

  /** The scan from index `i`: stop at the first NOTSUBTYPE; strictness is reported only in strict mode. */
  function ListSubtypeFrom(xs: seq<SType>, ys: seq<SType>, i: nat, strictStatus: bool, strict: bool): SubtypeResult
    requires |xs| == |ys| && i <= |xs|
    decreases xs, 0, |xs| - i
  {
    if i == |xs| then (if strict && strictStatus then STRICTSUBTYPE else SUBTYPE)
    else
      match Subtype(xs[i], ys[i], strict)
      case NOTSUBTYPE => NOTSUBTYPE
      case STRICTSUBTYPE => ListSubtypeFrom(xs, ys, i + 1, true, strict)
      case SUBTYPE => ListSubtypeFrom(xs, ys, i + 1, strictStatus, strict)
  }

  /** The loop of `List<SType>.subtype(other, strict)`. */
  method SubtypeLists(xs: seq<SType>, ys: seq<SType>, strict: bool) returns (r: SubtypeResult)
    ensures r == ListSubtype(xs, ys, strict)
  {
    if |xs| != |ys| {
      return NOTSUBTYPE;
    }
    var strictStatus := false;
    var i := 0;
    while i < |xs|
      invariant 0 <= i <= |xs|
      invariant ListSubtypeFrom(xs, ys, i, strictStatus, strict) == ListSubtypeFrom(xs, ys, 0, false, strict)
    {
      var test := Subtype(xs[i], ys[i], strict);
      if test == NOTSUBTYPE {
        return NOTSUBTYPE;
      } else if test == STRICTSUBTYPE {
        strictStatus := true;
      }
      i := i + 1;
    }
    r := if strict && strictStatus then STRICTSUBTYPE else SUBTYPE;
  }

  // ---------------------------------------------------------------------------------------------
  // Properties

  lemma {:induction false} ListSubtypeFromCharacterization(xs: seq<SType>, ys: seq<SType>, i: nat, strictStatus: bool, strict: bool)
    requires |xs| == |ys| && i <= |xs|
    ensures ListSubtypeFrom(xs, ys, i, strictStatus, strict) ==
      if exists j :: i <= j < |xs| && Subtype(xs[j], ys[j], strict) == NOTSUBTYPE then NOTSUBTYPE
      else if strict && (strictStatus || exists j :: i <= j < |xs| && Subtype(xs[j], ys[j], strict) == STRICTSUBTYPE) then STRICTSUBTYPE
      else SUBTYPE
    decreases |xs| - i
  {
    if i < |xs| {
      var test := Subtype(xs[i], ys[i], strict);
      if test == STRICTSUBTYPE {
        ListSubtypeFromCharacterization(xs, ys, i + 1, true, strict);
      } else if test == SUBTYPE {
        ListSubtypeFromCharacterization(xs, ys, i + 1, strictStatus, strict);
      }
    }
  }

  /** The list rule: unrelated on a size mismatch or a failing pair; strict only in strict mode with a strict pair. */
  lemma ListSubtypeCharacterization(xs: seq<SType>, ys: seq<SType>, strict: bool)
    ensures ListSubtype(xs, ys, strict) ==
      if |xs| != |ys| || exists i :: 0 <= i < |xs| && Subtype(xs[i], ys[i], strict) == NOTSUBTYPE then NOTSUBTYPE
      else if strict && exists i :: 0 <= i < |xs| && Subtype(xs[i], ys[i], strict) == STRICTSUBTYPE then STRICTSUBTYPE
      else SUBTYPE
  {
    if |xs| == |ys| {
      ListSubtypeFromCharacterization(xs, ys, 0, false, strict);
    }
  }

  /** Some bound on the chain is related to `other` by the non-strict relation. */
  predicate SomeBoundRelated(chain: seq<SType>, other: SType)
  {
    exists i :: 0 <= i < |chain| && Subtype(chain[i], other, false) != NOTSUBTYPE
  }

  /** Some bound on the chain is a strict subtype of `other` by the strict relation. */
  predicate SomeBoundStrict(chain: seq<SType>, other: SType)
  {
    exists i :: 0 <= i < |chain| && Subtype(chain[i], other, true) == STRICTSUBTYPE
  }

  /** Outside strict mode the walk answers SUBTYPE exactly when some bound on the chain is related to `other`. */
  lemma {:induction false} NonStrictWalk(bound: SType, strictStatus: bool, other: SType, isShape: bool)
    ensures WalkBounds(bound, strictStatus, other, isShape, false) != STRICTSUBTYPE
    ensures WalkBounds(bound, strictStatus, other, isShape, false) == SUBTYPE <==>
      SomeBoundRelated(BoundChain(bound, isShape), other)
    decreases bound
  {
    if IsKindSymbol(bound, isShape) {
      NonStrictWalk(bound.bound, strictStatus, other, isShape);
      ChainRelated(bound, other, isShape);
    } else {
      assert BoundChain(bound, isShape) == [bound];
    }
  }

  lemma ChainRelated(bound: SType, other: SType, isShape: bool)
    requires IsKindSymbol(bound, isShape)
    ensures SomeBoundRelated(BoundChain(bound, isShape), other) <==>
      Subtype(bound, other, false) != NOTSUBTYPE || SomeBoundRelated(BoundChain(bound.bound, isShape), other)
  {
    var chain, rest := BoundChain(bound, isShape), BoundChain(bound.bound, isShape);
    assert chain == [bound] + rest;
    if SomeBoundRelated(rest, other) {
      var k :| 0 <= k < |rest| && Subtype(rest[k], other, false) != NOTSUBTYPE;
      assert chain[k + 1] == rest[k];
    }
    if SomeBoundRelated(chain, other) {
      var i :| 0 <= i < |chain| && Subtype(chain[i], other, false) != NOTSUBTYPE;
      if i > 0 {
        assert rest[i - 1] == chain[i];
      }
    }
  }

  lemma ChainStrict(bound: SType, other: SType, isShape: bool)
    requires IsKindSymbol(bound, isShape)
    ensures SomeBoundStrict(BoundChain(bound, isShape), other) <==>
      Subtype(bound, other, true) == STRICTSUBTYPE || SomeBoundStrict(BoundChain(bound.bound, isShape), other)
  {
    var chain, rest := BoundChain(bound, isShape), BoundChain(bound.bound, isShape);
    assert chain == [bound] + rest;
    if SomeBoundStrict(rest, other) {
      var k :| 0 <= k < |rest| && Subtype(rest[k], other, true) == STRICTSUBTYPE;
      assert chain[k + 1] == rest[k];
    }
    if SomeBoundStrict(chain, other) {
      var i :| 0 <= i < |chain| && Subtype(chain[i], other, true) == STRICTSUBTYPE;
      if i > 0 {
        assert rest[i - 1] == chain[i];
      }
    }
  }

  /**
   * In strict mode the walk (whose status stays false) never answers a plain SUBTYPE: it is STRICTSUBTYPE
   * exactly when some bound on the chain is a strict subtype of `other`, and NOTSUBTYPE otherwise, even
   * when a bound is a (non-strict) subtype.
   */
  lemma {:induction false} StrictWalk(bound: SType, other: SType, isShape: bool)
    ensures WalkBounds(bound, false, other, isShape, true) != SUBTYPE
    ensures WalkBounds(bound, false, other, isShape, true) == STRICTSUBTYPE <==>
      SomeBoundStrict(BoundChain(bound, isShape), other)
    decreases bound
  {
    if IsKindSymbol(bound, isShape) {
      StrictWalk(bound.bound, other, isShape);
      ChainStrict(bound, other, isShape);
    } else {
      assert BoundChain(bound, isShape) == [bound];
    }
  }

  /** Outside strict mode no rule answers STRICTSUBTYPE, so `isSubtypeOf` is "anything but NOTSUBTYPE". */
  lemma NonStrictNeverStrict(a: SType, b: SType)
    ensures Subtype(a, b, false) != STRICTSUBTYPE
    ensures IsSubtypeOf(a, b) <==> Subtype(a, b, false) != NOTSUBTYPE
  {
    if IsSymbolic(a) {
      NonStrictWalk(a.bound, false, b, a.SymbolicShape?);
    }
    if a.DimShape? && b.DimShape? {
      ListSubtypeCharacterization(a.dims, b.dims, false);
    }
    if a.STypeTuple? && b.STypeTuple? {
      ListSubtypeCharacterization(a.types, b.types, false);
    }
  }

  /** Outside strict mode the wildcards are tops: every dim, and every shape, that is not an error is below them. */
  lemma WildcardsAreTopsWhenNotStrict(a: SType, e: Option<STypeException>)
    requires !IsError(a)
    ensures IsDim(a) ==> IsSubtypeOf(a, WildcardDim(e))
    ensures IsShape(a) ==> IsSubtypeOf(a, WildcardShape(e))
  {
  }

  /** An error value is a subtype of nothing, in either mode. */
  lemma ErrorIsSubtypeOfNothing(a: SType, b: SType, strict: bool)
    requires IsError(a)
    ensures Subtype(a, b, strict) == NOTSUBTYPE
  {
  }

  /** Numeric dims are related only when equal, in either mode. */
  lemma NumericDimRule(v: int, w: int, e1: Option<STypeException>, e2: Option<STypeException>, strict: bool)
    ensures Subtype(NumericDim(v, e1), NumericDim(w, e2), strict) == if v == w then SUBTYPE else NOTSUBTYPE
  {
  }

  /**
   * Where the two relations part: a symbol with a strict bound that equals the target is a strict subtype
   * of it for the analysis library, but not for the plugin in strict mode, whose walk ignores the link's strictness.
   */
  lemma StrictBoundDivergence()
    ensures var target := DimShape([NumericDim(2, None), NumericDim(3, None)], None);
      var a := SymbolicShape("A", target, true, 0, None);
      AnalysisSubtyper.IsStrictSubtypeOf(a, target) && !IsStrictSubtypeOf(a, target) &&
      Subtype(a, target, true) == NOTSUBTYPE
  {
    var target := DimShape([NumericDim(2, None), NumericDim(3, None)], None);
    var a := SymbolicShape("A", target, true, 0, None);
    SEqReflexive(target);
    assert AnalysisSubtyper.Subtype(target, target) == AnalysisSubtyper.SUBTYPE;
    assert AnalysisSubtyper.WalkBounds(target, true, target, true) == AnalysisSubtyper.STRICTSUBTYPE;
    assert Subtype(target, target, true) == SUBTYPE;
    assert WalkBounds(target, false, target, true, true) == NOTSUBTYPE;
  }
}
