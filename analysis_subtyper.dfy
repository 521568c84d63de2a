/**
 * The subtyping relation of the analysis library (`STypeSubtyper` in `shapeTyping.analysis.utils`):
 * a three-valued answer (subtype, strict subtype, not a subtype) computed by cases on the left and
 * right values, by walking a symbol's chain of upper bounds, and elementwise on dim lists and tuples.
 */
module AnalysisSubtyper {
  import opened Wrappers
  import opened STypes
  import opened STypeUtils
  import opened Generics

  datatype SubtypeResult = SUBTYPE | STRICTSUBTYPE | NOTSUBTYPE

  /** `isSubtypeOf`: any answer but NOTSUBTYPE. */
  predicate IsSubtypeOf(a: SType, b: SType)
  {
    Subtype(a, b) != NOTSUBTYPE
  }

  /** `isStrictSubtypeOf`: exactly STRICTSUBTYPE. */
  predicate IsStrictSubtypeOf(a: SType, b: SType)
  {
    Subtype(a, b) == STRICTSUBTYPE
  }

  /** `SType.subtype`: dispatch on the class of the left value; tuples compare their types elementwise. */
  function Subtype(a: SType, b: SType): SubtypeResult
    decreases a, 3
  {
    if IsShape(a) then ShapeSubtype(a, b)
    else if IsDim(a) then DimSubtype(a, b)
    else if a.STypeTuple? then (if b.STypeTuple? then ListSubtype(a.types, b.types) else NOTSUBTYPE)
    else NOTSUBTYPE
  }

  /** `Dim.subtype`. The equality test is `b.equals(a)`, as Kotlin's `when (other) { this -> ... }` is. */
  function DimSubtype(a: SType, b: SType): SubtypeResult
    requires IsDim(a)
    decreases a, 2
  {
    if a.ErrorDim? then NOTSUBTYPE
    else if SEq(b, a) then SUBTYPE
    else if b.WildcardDim? then
      (if a.SymbolicDim? then WalkBounds(a.bound, a.isStrictBound, b, false)
       else if a.NumericDim? then STRICTSUBTYPE
       else NOTSUBTYPE)
    else if b.SymbolicDim? then
      (if a.SymbolicDim? then WalkBounds(a.bound, a.isStrictBound, b, false) else NOTSUBTYPE)
    else if b.NumericDim? then
      (if a.NumericDim? then (if a.value == b.value then SUBTYPE else NOTSUBTYPE)
       else if a.SymbolicDim? then WalkBounds(a.bound, a.isStrictBound, b, false)
       else NOTSUBTYPE)
    else NOTSUBTYPE
  }

  /** `Shape.subtype`. */
  function ShapeSubtype(a: SType, b: SType): SubtypeResult
    requires IsShape(a)
    decreases a, 2
  {
    if a.ErrorShape? then NOTSUBTYPE
    else if SEq(b, a) then SUBTYPE
    else if b.WildcardShape? then
      (if a.SymbolicShape? then WalkBounds(a.bound, a.isStrictBound, b, true)
       else if a.DimShape? then STRICTSUBTYPE
       else if a.ShapeFunctionCall? then SUBTYPE
       else NOTSUBTYPE)
    else if b.SymbolicShape? then
      (if a.SymbolicShape? then WalkBounds(a.bound, a.isStrictBound, b, true) else NOTSUBTYPE)
    else if b.DimShape? then
      (if a.DimShape? then ListSubtype(a.dims, b.dims)
       else if a.SymbolicShape? then WalkBounds(a.bound, a.isStrictBound, b, true)
       else NOTSUBTYPE)
    else NOTSUBTYPE
  }

  /** `stepSubtypeTest`: the bound's own answer, made strict when the link to it is strict. */
  function StepSubtypeTest(bound: SType, strictStatus: bool, other: SType): (r: SubtypeResult)
    ensures r == NOTSUBTYPE <==> Subtype(bound, other) == NOTSUBTYPE
    ensures r != NOTSUBTYPE && strictStatus ==> r == STRICTSUBTYPE
    ensures r != NOTSUBTYPE && !strictStatus ==> r == Subtype(bound, other)
    decreases bound, 4
  {
    var test := Subtype(bound, other);
    if test == NOTSUBTYPE then NOTSUBTYPE else if strictStatus then STRICTSUBTYPE else test
  }

  /** The specification of the `upperBoundedBy` loop: the first bound on the chain that answers, or the last one. */
  function WalkBounds(bound: SType, strictStatus: bool, other: SType, isShape: bool): SubtypeResult
    decreases bound, 5
  {
    if IsKindSymbol(bound, isShape) then
      var step := StepSubtypeTest(bound, strictStatus, other);
      if step != NOTSUBTYPE then step else WalkBounds(bound.bound, bound.isStrictBound, other, isShape)
    else StepSubtypeTest(bound, strictStatus, other)
  }

  /** `SymbolicDim.upperBoundedBy` and `SymbolicShape.upperBoundedBy`: the loop over the chain of bounds. */
  method UpperBoundedBy(a: SType, other: SType) returns (r: SubtypeResult)
    requires IsSymbolic(a)
    ensures r == WalkBounds(a.bound, a.isStrictBound, other, a.SymbolicShape?)
  {
    var isShape := a.SymbolicShape?;
    var currentUpperBound := a.bound;
    var strictStatus := a.isStrictBound;
    while IsKindSymbol(currentUpperBound, isShape)
      invariant WalkBounds(currentUpperBound, strictStatus, other, isShape) == WalkBounds(a.bound, a.isStrictBound, other, isShape)
      decreases currentUpperBound
    {
      var step := StepSubtypeTest(currentUpperBound, strictStatus, other);
      if step != NOTSUBTYPE {
        return step;
      }
      strictStatus := currentUpperBound.isStrictBound;
      currentUpperBound := currentUpperBound.bound;
    }
    r := StepSubtypeTest(currentUpperBound, strictStatus, other);
  }

  /** `List<SType>.subtype`: lists of different sizes are unrelated; otherwise the elementwise scan. */
  function ListSubtype(xs: seq<SType>, ys: seq<SType>): SubtypeResult
    decreases xs, 1
  {
    if |xs| != |ys| then NOTSUBTYPE else ListSubtypeFrom(xs, ys, 0, false)
  }

  /** The scan from index `i` with the strictness seen so far: stop at the first NOTSUBTYPE. */
  function ListSubtypeFrom(xs: seq<SType>, ys: seq<SType>, i: nat, strictStatus: bool): SubtypeResult
    requires |xs| == |ys| && i <= |xs|
    decreases xs, 0, |xs| - i
  {
    if i == |xs| then (if strictStatus then STRICTSUBTYPE else SUBTYPE)
    else
      match Subtype(xs[i], ys[i])
      case NOTSUBTYPE => NOTSUBTYPE
      case STRICTSUBTYPE => ListSubtypeFrom(xs, ys, i + 1, true)
      case SUBTYPE => ListSubtypeFrom(xs, ys, i + 1, strictStatus)
  }

  /** The loop of `List<SType>.subtype`. */
  method SubtypeLists(xs: seq<SType>, ys: seq<SType>) returns (r: SubtypeResult)
    ensures r == ListSubtype(xs, ys)
  {
    if |xs| != |ys| {
      return NOTSUBTYPE;
    }
    var strictStatus := false;
    var i := 0;
    while i < |xs|
      invariant 0 <= i <= |xs|
      invariant ListSubtypeFrom(xs, ys, i, strictStatus) == ListSubtypeFrom(xs, ys, 0, false)
    {
      var test := Subtype(xs[i], ys[i]);
      if test == NOTSUBTYPE {
        return NOTSUBTYPE;
      } else if test == STRICTSUBTYPE {
        strictStatus := true;
      }
      i := i + 1;
    }
    r := if strictStatus then STRICTSUBTYPE else SUBTYPE;
  }

  // ---------------------------------------------------------------------------------------------
  // Properties

  /** The list rule stated outright: unrelated when sizes differ or some pair is unrelated, strict when some pair is strict. */
  lemma {:induction false} ListSubtypeCharacterization(xs: seq<SType>, ys: seq<SType>)
    ensures ListSubtype(xs, ys) ==
      if |xs| != |ys| || exists i :: 0 <= i < |xs| && Subtype(xs[i], ys[i]) == NOTSUBTYPE then NOTSUBTYPE
      else if exists i :: 0 <= i < |xs| && Subtype(xs[i], ys[i]) == STRICTSUBTYPE then STRICTSUBTYPE
      else SUBTYPE
  {
    if |xs| == |ys| {
      ListSubtypeFromCharacterization(xs, ys, 0, false);
    }
  }

  lemma {:induction false} ListSubtypeFromCharacterization(xs: seq<SType>, ys: seq<SType>, i: nat, strictStatus: bool)
    requires |xs| == |ys| && i <= |xs|
    ensures ListSubtypeFrom(xs, ys, i, strictStatus) ==
      if exists j :: i <= j < |xs| && Subtype(xs[j], ys[j]) == NOTSUBTYPE then NOTSUBTYPE
      else if strictStatus || exists j :: i <= j < |xs| && Subtype(xs[j], ys[j]) == STRICTSUBTYPE then STRICTSUBTYPE
      else SUBTYPE
    decreases |xs| - i
  {
    if i < |xs| {
      var test := Subtype(xs[i], ys[i]);
      if test == STRICTSUBTYPE {
        ListSubtypeFromCharacterization(xs, ys, i + 1, true);
      } else if test == SUBTYPE {
        ListSubtypeFromCharacterization(xs, ys, i + 1, strictStatus);
      }
    }
  }

  /** An error value is a subtype of nothing, itself included. */
  lemma ErrorIsSubtypeOfNothing(a: SType, b: SType)
    requires IsError(a)
    ensures Subtype(a, b) == NOTSUBTYPE
  {
  }

  /** Every value without errors is a subtype (and never a strict one) of itself. */
  lemma {:induction false} SubtypeReflexive(a: SType)
    requires !ContainsErrors(a)
    ensures Subtype(a, a) == SUBTYPE
    decreases a
  {
    SEqReflexive(a);
    if a.STypeTuple? {
      forall i | 0 <= i < |a.types| ensures Subtype(a.types[i], a.types[i]) == SUBTYPE {
        assert !ContainsErrors(a.types[i]);
        SubtypeReflexive(a.types[i]);
      }
      ListSubtypeCharacterization(a.types, a.types);
    }
  }

  /** No value is a strict subtype of itself. */
  lemma {:induction false} StrictSubtypeIrreflexive(a: SType)
    ensures Subtype(a, a) != STRICTSUBTYPE
    decreases a
  {
    SEqReflexive(a);
    if a.STypeTuple? {
      forall i | 0 <= i < |a.types| ensures Subtype(a.types[i], a.types[i]) != STRICTSUBTYPE {
        StrictSubtypeIrreflexive(a.types[i]);
      }
      ListSubtypeCharacterization(a.types, a.types);
    }
  }

  /** Numeric dims are related only when equal, and every numeric dim is a strict subtype of a wildcard dim. */
  lemma NumericDimRules(v: int, w: int, e1: Option<STypeException>, e2: Option<STypeException>)
    ensures Subtype(NumericDim(v, e1), NumericDim(w, e2)) == if v == w then SUBTYPE else NOTSUBTYPE
    ensures Subtype(NumericDim(v, e1), WildcardDim(e2)) == STRICTSUBTYPE
  {
  }

  /** Against a wildcard shape: a dim shape is a strict subtype, a shape function call a (non-strict) subtype. */
  lemma WildcardShapeRules(a: SType, e: Option<STypeException>)
    requires a.DimShape? || a.ShapeFunctionCall?
    ensures Subtype(a, WildcardShape(e)) == if a.DimShape? then STRICTSUBTYPE else SUBTYPE
  {
  }

  /** Only a symbol can be a subtype of a symbol (or of a dim shape, apart from dim shapes themselves). */
  lemma NothingConcreteBelowASymbol(a: SType, b: SType)
    requires IsSymbolic(b) && !IsSymbolic(a)
    ensures Subtype(a, b) == NOTSUBTYPE
  {
  }

  /** Against a symbol of its kind, a symbol is equal to it or walks its own bounds. */
  lemma SymbolAgainstSymbol(s: SType, t: SType, isShape: bool)
    requires IsKindSymbol(s, isShape) && IsKindSymbol(t, isShape)
    ensures Subtype(s, t) == if SEq(t, s) then SUBTYPE else WalkBounds(s.bound, s.isStrictBound, t, isShape)
  {
  }

  /** Walking towards a symbol of the same kind succeeds exactly when that symbol is on the chain of bounds. */
  lemma {:induction false} WalkToSymbol(bound: SType, strictStatus: bool, t: SType, isShape: bool)
    requires IsKindSymbol(t, isShape) && WellKinded(bound) && (if isShape then IsShape(bound) else IsDim(bound))
    ensures WalkBounds(bound, strictStatus, t, isShape) != NOTSUBTYPE <==>
      OnChain(t, BoundChain(bound, isShape))
    decreases bound
  {
    if IsKindSymbol(bound, isShape) {
      WalkToSymbol(bound.bound, bound.isStrictBound, t, isShape);
      WalkToSymbolStep(bound, strictStatus, t, isShape);
      ChainMembership(bound, t, isShape);
    } else {
      NothingConcreteBelowASymbol(bound, t);
      assert BoundChain(bound, isShape) == [bound];
      assert !SEq(t, bound);
    }
  }

  lemma WalkToSymbolStep(bound: SType, strictStatus: bool, t: SType, isShape: bool)
    requires IsKindSymbol(bound, isShape) && IsKindSymbol(t, isShape)
    ensures WalkBounds(bound, strictStatus, t, isShape) != NOTSUBTYPE <==>
      SEq(t, bound) || WalkBounds(bound.bound, bound.isStrictBound, t, isShape) != NOTSUBTYPE
  {
    SymbolAgainstSymbol(bound, t, isShape);
  }

  /** `t` equals (by `SEq`) some element of `chain`. */
  predicate OnChain(t: SType, chain: seq<SType>)
  {
    exists i :: 0 <= i < |chain| && SEq(t, chain[i])
  }

  lemma ChainMembership(bound: SType, t: SType, isShape: bool)
    requires IsKindSymbol(bound, isShape)
    ensures OnChain(t, BoundChain(bound, isShape)) <==> SEq(t, bound) || OnChain(t, BoundChain(bound.bound, isShape))
  {
    assert BoundChain(bound, isShape) == [bound] + BoundChain(bound.bound, isShape);
    ConsMembership(t, bound, BoundChain(bound.bound, isShape));
  }

  /** A value is on `[x] + rest` exactly when it equals `x` or is on `rest`. */
  lemma ConsMembership(t: SType, x: SType, rest: seq<SType>)
    ensures OnChain(t, [x] + rest) <==> SEq(t, x) || OnChain(t, rest)
  {
    var chain := [x] + rest;
    if SEq(t, x) {
      assert chain[0] == x;
    }
    if OnChain(t, rest) {
      var i :| 0 <= i < |rest| && SEq(t, rest[i]);
      assert chain[i + 1] == rest[i];
    }
    if OnChain(t, chain) {
      var i :| 0 <= i < |chain| && SEq(t, chain[i]);
      if i > 0 {
        assert rest[i - 1] == chain[i];
      }
    }
  }

  /** A symbol is below a symbol of its kind exactly when that symbol is itself or on its chain of bounds. */
  lemma SymbolBelowSymbol(s: SType, t: SType)
    requires IsSymbolic(s) && WellKinded(s) && IsKindSymbol(t, s.SymbolicShape?)
    ensures IsSubtypeOf(s, t) <==>
      SEq(t, s) || OnChain(t, BoundChain(s.bound, s.SymbolicShape?))
  {
    WalkToSymbol(s.bound, s.isStrictBound, t, s.SymbolicShape?);
    SymbolAgainstSymbol(s, t, s.SymbolicShape?);
  }

  /** No error anywhere on the value's chain of bounds. */
  predicate BoundsErrorFree(t: SType)
    decreases t
  {
    !IsError(t) && (IsSymbolic(t) ==> BoundsErrorFree(t.bound))
  }

  /** The wildcard shape is a top element: every well-kinded shape whose bounds carry no error is below it. */
  lemma {:induction false} EveryShapeBelowWildcardShape(a: SType, e: Option<STypeException>)
    requires IsShape(a) && WellKinded(a) && BoundsErrorFree(a)
    ensures IsSubtypeOf(a, WildcardShape(e))
    decreases a
  {
    if a.SymbolicShape? {
      EveryShapeBelowWildcardShape(a.bound, e);
      assert StepSubtypeTest(a.bound, a.isStrictBound, WildcardShape(e)) != NOTSUBTYPE;
      assert WalkBounds(a.bound, a.isStrictBound, WildcardShape(e), true) != NOTSUBTYPE;
    }
  }

  /** The chain of (bound, strictness of the link to it) that `upperBoundedBy` walks. */
  function BoundLinks(bound: SType, strictStatus: bool, isShape: bool): (links: seq<(SType, bool)>)
    ensures |links| >= 1 && links[0] == (bound, strictStatus)
    decreases bound
  {
    [(bound, strictStatus)] +
      if IsKindSymbol(bound, isShape) then BoundLinks(bound.bound, bound.isStrictBound, isShape) else []
  }

  /** No bound on a chain of links is a subtype of `other`. */
  predicate NoBoundAnswers(links: seq<(SType, bool)>, other: SType)
  {
    forall i :: 0 <= i < |links| ==> Subtype(links[i].0, other) == NOTSUBTYPE
  }

  /** The bound walk answers NOTSUBTYPE exactly when no bound on the chain is a subtype of `other`. */
  lemma {:induction false} WalkBoundsMissesAll(bound: SType, strictStatus: bool, other: SType, isShape: bool)
    ensures WalkBounds(bound, strictStatus, other, isShape) == NOTSUBTYPE <==>
      NoBoundAnswers(BoundLinks(bound, strictStatus, isShape), other)
    decreases bound
  {
    var links := BoundLinks(bound, strictStatus, isShape);
    if IsKindSymbol(bound, isShape) {
      var rest := BoundLinks(bound.bound, bound.isStrictBound, isShape);
      assert links == [(bound, strictStatus)] + rest;
      WalkBoundsMissesAll(bound.bound, bound.isStrictBound, other, isShape);
      if NoBoundAnswers(rest, other) && Subtype(bound, other) == NOTSUBTYPE {
        forall i | 1 <= i < |links| ensures Subtype(links[i].0, other) == NOTSUBTYPE {
          assert links[i] == rest[i - 1];
        }
      }
      if NoBoundAnswers(links, other) {
        forall k | 0 <= k < |rest| ensures Subtype(rest[k].0, other) == NOTSUBTYPE {
          assert rest[k] == links[k + 1];
        }
      }
    } else {
      assert links == [(bound, strictStatus)];
    }
  }

  /**
   * When the bound at position `i` of the chain is the first that is a subtype of `other`, the walk answers
   * with that bound's answer, made strict by the strictness of the link leading to that bound alone (the
   * strictness of earlier links does not carry over).
   */
  lemma {:induction false} WalkBoundsFirstMatch(bound: SType, strictStatus: bool, other: SType, isShape: bool, i: nat)
    requires i < |BoundLinks(bound, strictStatus, isShape)|
    requires Subtype(BoundLinks(bound, strictStatus, isShape)[i].0, other) != NOTSUBTYPE
    requires forall j :: 0 <= j < i ==> Subtype(BoundLinks(bound, strictStatus, isShape)[j].0, other) == NOTSUBTYPE
    ensures var link := BoundLinks(bound, strictStatus, isShape)[i];
      WalkBounds(bound, strictStatus, other, isShape) == if link.1 then STRICTSUBTYPE else Subtype(link.0, other)
    decreases bound
  {
    var links := BoundLinks(bound, strictStatus, isShape);
    if i > 0 {
      var rest := BoundLinks(bound.bound, bound.isStrictBound, isShape);
      assert links == [(bound, strictStatus)] + rest;
      assert Subtype(links[0].0, other) == NOTSUBTYPE;
      forall j | 0 <= j < i - 1 ensures Subtype(rest[j].0, other) == NOTSUBTYPE {
        assert rest[j] == links[j + 1];
      }
      assert rest[i - 1] == links[i];
      WalkBoundsFirstMatch(bound.bound, bound.isStrictBound, other, isShape, i - 1);
    }
  }

  // The values of the analysis library's subtyping tests.
  const Dim2: SType := NumericDim(2, None)
  const Dim3: SType := NumericDim(3, None)
  const Shape23Any: SType := DimShape([Dim2, Dim3, DefaultWildcardDim], None)
  const Shape2AnyAny: SType := DimShape([Dim2, DefaultWildcardDim, DefaultWildcardDim], None)
  const Shape3AnyAny: SType := DimShape([Dim3, DefaultWildcardDim, DefaultWildcardDim], None)
  const Shape123: SType := DimShape([NumericDim(1, None), Dim2, Dim3], None)
  const ShapeAny33: SType := DimShape([DefaultWildcardDim, Dim3, Dim3], None)
  const ShapeAny23: SType := DimShape([DefaultWildcardDim, Dim2, Dim3], None)

  /** Symbols against the wildcard shape: a strict link or a dim-shape bound makes the answer strict. */
  lemma WildcardShapeExamples()
    ensures IsSubtypeOf(Shape23Any, DefaultWildcardShape) && IsStrictSubtypeOf(Shape23Any, DefaultWildcardShape)
    ensures var sym := SymbolicShape("A", DefaultWildcardShape, false, 0, None);
      IsSubtypeOf(sym, DefaultWildcardShape) && !IsStrictSubtypeOf(sym, DefaultWildcardShape)
    ensures var sym := SymbolicShape("A", DefaultWildcardShape, true, 0, None);
      IsSubtypeOf(sym, DefaultWildcardShape) && IsStrictSubtypeOf(sym, DefaultWildcardShape)
    ensures var sym := SymbolicShape("A", Shape23Any, false, 0, None);
      IsSubtypeOf(sym, DefaultWildcardShape) && IsStrictSubtypeOf(sym, DefaultWildcardShape) &&
      IsSubtypeOf(sym, sym) && !IsStrictSubtypeOf(sym, sym)
  {
    var w := DefaultWildcardShape;
    assert Subtype(Shape23Any, w) == STRICTSUBTYPE;
    assert WalkBounds(Shape23Any, false, w, true) == STRICTSUBTYPE;
    assert Subtype(w, w) == SUBTYPE;
    assert WalkBounds(w, false, w, true) == SUBTYPE;
    assert WalkBounds(w, true, w, true) == STRICTSUBTYPE;
  }

  /** A dim shape is a subtype, not a strict one, of itself, and a strict subtype of one with more wildcards. */
  lemma DimShapeExamples()
    ensures IsSubtypeOf(Shape23Any, Shape23Any) && !IsStrictSubtypeOf(Shape23Any, Shape23Any)
    ensures IsSubtypeOf(Shape23Any, Shape2AnyAny) && IsStrictSubtypeOf(Shape23Any, Shape2AnyAny)
  {
    SEqReflexive(Shape23Any);
    StrictSubtypeIrreflexive(Shape23Any);
    assert Subtype(Dim2, Dim2) == SUBTYPE && Subtype(Dim3, DefaultWildcardDim) == STRICTSUBTYPE;
    assert Subtype(DefaultWildcardDim, DefaultWildcardDim) == SUBTYPE;
    ListEqIff(Shape2AnyAny.dims, Shape23Any.dims);
    ListSubtypeCharacterization(Shape23Any.dims, Shape2AnyAny.dims);
  }

  /** Differing numeric dims make dim shapes unrelated. */
  lemma DimShapeMismatchExample()
    ensures !IsSubtypeOf(Shape23Any, Shape3AnyAny) && !IsStrictSubtypeOf(Shape23Any, Shape3AnyAny)
  {
    ListEqIff(Shape3AnyAny.dims, Shape23Any.dims);
    assert Subtype(Shape23Any.dims[0], Shape3AnyAny.dims[0]) == NOTSUBTYPE;
    ListSubtypeCharacterization(Shape23Any.dims, Shape3AnyAny.dims);
    assert !SEq(Shape3AnyAny, Shape23Any);
    assert ListSubtype(Shape23Any.dims, Shape3AnyAny.dims) == NOTSUBTYPE;
    assert Subtype(Shape23Any, Shape3AnyAny) == NOTSUBTYPE;
  }

  /** A symbol bounded by a dim shape answers as its bound does. */
  lemma SymbolWithDimShapeBoundExamples()
    ensures var a := SymbolicShape("A", Shape123, false, 0, None);
      !IsSubtypeOf(a, ShapeAny33) && IsSubtypeOf(a, ShapeAny23) && IsStrictSubtypeOf(a, ShapeAny23)
  {
    assert Subtype(NumericDim(1, None), DefaultWildcardDim) == STRICTSUBTYPE;
    assert Subtype(Dim2, Dim3) == NOTSUBTYPE;
    assert Subtype(Dim2, Dim2) == SUBTYPE && Subtype(Dim3, Dim3) == SUBTYPE;
    ListEqIff(ShapeAny23.dims, Shape123.dims);
    ListEqIff(ShapeAny33.dims, Shape123.dims);
    assert Subtype(Shape123.dims[1], ShapeAny33.dims[1]) == NOTSUBTYPE;
    ListSubtypeCharacterization(Shape123.dims, ShapeAny33.dims);
    ListSubtypeCharacterization(Shape123.dims, ShapeAny23.dims);
    assert !SEq(ShapeAny33, Shape123);
    assert ListSubtype(Shape123.dims, ShapeAny33.dims) == NOTSUBTYPE;
    assert Subtype(Shape123, ShapeAny33) == NOTSUBTYPE;
    assert Subtype(Shape123, ShapeAny23) == STRICTSUBTYPE;
    assert WalkBounds(Shape123, false, ShapeAny33, true) == NOTSUBTYPE;
    assert WalkBounds(Shape123, false, ShapeAny23, true) == STRICTSUBTYPE;
    var a := SymbolicShape("A", Shape123, false, 0, None);
    assert !SEq(ShapeAny33, a) && !SEq(ShapeAny23, a);
    assert Subtype(a, ShapeAny33) == WalkBounds(Shape123, false, ShapeAny33, true);
    assert Subtype(a, ShapeAny23) == WalkBounds(Shape123, false, ShapeAny23, true);
  }

  /** The chain test: two symbols sharing a bound are unrelated, and non-strict links give non-strict answers. */
  lemma SymbolChainExample()
    ensures var supershape := SymbolicShape("A", Shape23Any, false, 0, None);
      var intermediate := SymbolicShape("B", supershape, false, 0, None);
      var s1 := SymbolicShape("B", intermediate, false, 0, None);
      var s2 := SymbolicShape("C", supershape, false, 0, None);
      !IsSubtypeOf(s1, s2) && IsSubtypeOf(s1, supershape) && IsSubtypeOf(s1, intermediate) &&
      !IsStrictSubtypeOf(s1, supershape) && !IsStrictSubtypeOf(s1, intermediate)
  {
    var supershape := SymbolicShape("A", Shape23Any, false, 0, None);
    var intermediate := SymbolicShape("B", supershape, false, 0, None);
    var s2 := SymbolicShape("C", supershape, false, 0, None);
    assert Subtype(Shape23Any, s2) == NOTSUBTYPE;
    assert WalkBounds(Shape23Any, false, s2, true) == NOTSUBTYPE;
    assert Subtype(supershape, s2) == NOTSUBTYPE;
    assert WalkBounds(supershape, false, s2, true) == NOTSUBTYPE;
    assert Subtype(intermediate, s2) == NOTSUBTYPE;
    assert WalkBounds(intermediate, false, s2, true) == NOTSUBTYPE;
    assert Subtype(supershape, supershape) == SUBTYPE;
    assert WalkBounds(supershape, false, supershape, true) == SUBTYPE;
    assert Subtype(intermediate, supershape) == SUBTYPE;
    var s1 := SymbolicShape("B", intermediate, false, 0, None);
    assert WalkBounds(intermediate, false, supershape, true) == SUBTYPE;
    assert Subtype(s1, s2) == NOTSUBTYPE;
    assert Subtype(s1, supershape) == SUBTYPE;
    assert Subtype(s1, intermediate) == SUBTYPE;
    assert WalkBounds(intermediate, false, supershape, true) == SUBTYPE;
  }
}
