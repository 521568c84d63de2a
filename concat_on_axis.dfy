/**
 * The `concatOnAxis` shape function: two dim shapes of one rank joined along an axis. The axis dims add
 * up (`plus`, or `Dim` when the sum is unknown); every other pair of dims must be equal and is merged
 * with `dimIntersect`.
 */
module ConcatOnAxis {
  import opened Wrappers
  import opened Strings
  import opened STypes
  import opened STypeUtils
  import opened ShapeFunctionUtils
  import opened DimArithmetic

  const WildcardWarning: string := "concatOnAxis: Cannot guarantee dimension matching for wildcard shapes"
  const ErrorPrefix: string := "concatOnAxis: "

  /** The arguments Kotlin's types admit: two shapes and a dim, whose dims are dims. */
  predicate WellTyped(a: SType, b: SType, axis: SType)
  {
    IsShape(a) && IsShape(b) && IsDim(axis) && WellKinded(a) && WellKinded(b)
  }

  /** `concatOnAxis`. */
  function ConcatOnAxis(a: SType, b: SType, axis: SType): (r: Option<SType>)
    requires WellTyped(a, b, axis)
  {
    match ErrorForArguments([a, b, axis])
    case Some(e) => Some(ErrorShape(e))
    case None =>
      if a.DimShape? && b.DimShape? && axis.NumericDim? then Some(ConcatDimShapes(a, b, axis.value))
      else if a.WildcardShape? || b.WildcardShape? then Some(WildcardShape(Some(STypeStrictModeException(WildcardWarning))))
      else None
  }

  /** One slot of the result: the sum on the axis, the merged dim elsewhere. */
  function NewDim(x: SType, y: SType, onAxis: bool): (d: SType)
    requires IsDim(x) && IsDim(y) && WellKinded(x) && WellKinded(y)
    ensures IsDim(d)
  {
    if onAxis then
      match Plus(x, y)
      case Some(s) => s
      case None => DefaultWildcardDim
    else DimIntersect(x, y, ErrorPrefix)
  }

  /** The zipped and indexed dims. */
  function NewDims(a: SType, b: SType, axis: int): (ds: seq<SType>)
    requires a.DimShape? && b.DimShape? && WellKinded(a) && WellKinded(b) && |a.dims| == |b.dims|
    ensures |ds| == |a.dims|
    ensures forall i :: 0 <= i < |ds| ==> ds[i] == NewDim(a.dims[i], b.dims[i], i == axis)
  {
    seq(|a.dims|, i requires 0 <= i < |a.dims| => NewDim(a.dims[i], b.dims[i], i == axis))
  }

  function MismatchedRanks(a: SType, b: SType): string
  {
    ErrorPrefix + "Can not concat shapes " + Show(a) + " and " + Show(b) + " due to mismatched ranks."
  }

  function AxisOutOfRange(a: SType, b: SType, axis: int): string
  {
    ErrorPrefix + "Axis " + IntToString(axis) + " is out of range for shapes " + Show(a) + " and " + Show(b)
  }

  /** `concatDimShapes`. */
  function ConcatDimShapes(a: SType, b: SType, axis: int): (r: SType)
    requires a.DimShape? && b.DimShape? && WellKinded(a) && WellKinded(b)
  {
    if |a.dims| != |b.dims| then ErrorShape(STypeFailure(MismatchedRanks(a, b)))
    else if axis < 0 || axis >= |a.dims| then ErrorShape(STypeFailure(AxisOutOfRange(a, b, axis)))
    else
      var newDims := NewDims(a, b, axis);
      match FirstErrorDim(newDims, 0)
      case Some(i) => ErrorShape(STypeFailure(newDims[i].exc.message + " at pos " + IntToString(axis)))
      case None => DimShape(newDims, None)
  }

  // ---------------------------------------------------------------------------------------------
  // Properties

  /**
   * Two dim shapes: an ERROR exactly when the ranks differ, the axis is out of range, or some slot is an
   * ErrorDim; otherwise a dim shape without error of the same rank whose axis slot is the sum (or `Dim`)
   * and whose other slots are the merged dims, none of them an ErrorDim.
   */
  lemma ConcatDimShapesOutcomes(a: SType, b: SType, axis: int)
    requires a.DimShape? && b.DimShape? && WellKinded(a) && WellKinded(b)
    ensures var r := ConcatDimShapes(a, b, axis);
      && (r.ErrorShape? || r.DimShape?)
      && (r.ErrorShape? ==> r.exc.kind == Failure && Level(r.exc) == ERROR)
      && (r.ErrorShape? <==>
            |a.dims| != |b.dims| || axis < 0 || axis >= |a.dims|
            || exists i :: 0 <= i < |a.dims| && NewDim(a.dims[i], b.dims[i], i == axis).ErrorDim?)
      && (r.DimShape? ==>
            && r.err.None? && |r.dims| == |a.dims| == |b.dims|
            && r.dims[axis] == (if Plus(a.dims[axis], b.dims[axis]).Some? then Plus(a.dims[axis], b.dims[axis]).value else DefaultWildcardDim)
            && (forall i :: 0 <= i < |r.dims| && i != axis ==> r.dims[i] == DimIntersect(a.dims[i], b.dims[i], ErrorPrefix))
            && (forall i :: 0 <= i < |r.dims| ==> !r.dims[i].ErrorDim?))
  {
    if |a.dims| == |b.dims| && 0 <= axis < |a.dims| {
      var newDims := NewDims(a, b, axis);
      if exists i :: 0 <= i < |a.dims| && NewDim(a.dims[i], b.dims[i], i == axis).ErrorDim? {
        var i :| 0 <= i < |a.dims| && NewDim(a.dims[i], b.dims[i], i == axis).ErrorDim?;
        assert newDims[i].ErrorDim?;
      }
    }
  }

  /**
   * Off the axis, a wildcard dim carrying a warning meets the plain `Dim`: the source's `dimIntersect` never
   * returns there, and `NewDim` keeps the warned wildcard with the "may not be exactly equal" warning.
   */
  lemma NewDimWhereSourceDiverges(w: STypeException)
    ensures var x := WildcardDim(Some(w));
      && DimIntersectAsWritten(x, DefaultWildcardDim, ErrorPrefix) == Diverges
      && NewDim(x, DefaultWildcardDim, false) == WithException(x, MayNotEqual(ErrorPrefix, DefaultWildcardDim, x))
  {
    WildcardWithWarningDiverges(w, ErrorPrefix);
  }

  /**
   * `concatOnAxis` by argument kind: the first error argument's failure; two dim shapes and a numeric axis
   * go to `concatDimShapes`; otherwise a wildcard shape gives a warned wildcard, and anything else no result.
   */
  lemma ConcatOnAxisCases(a: SType, b: SType, axis: SType)
    requires WellTyped(a, b, axis)
    ensures IsError(a) ==> ConcatOnAxis(a, b, axis) == Some(ErrorShape(ArgumentFailure(a)))
    ensures !IsError(a) && IsError(b) ==> ConcatOnAxis(a, b, axis) == Some(ErrorShape(ArgumentFailure(b)))
    ensures !IsError(a) && !IsError(b) && IsError(axis) ==> ConcatOnAxis(a, b, axis) == Some(ErrorShape(ArgumentFailure(axis)))
    ensures a.DimShape? && b.DimShape? && axis.NumericDim? ==> ConcatOnAxis(a, b, axis) == Some(ConcatDimShapes(a, b, axis.value))
    ensures !IsError(a) && !IsError(b) && !IsError(axis) && !(a.DimShape? && b.DimShape? && axis.NumericDim?) ==>
      (ConcatOnAxis(a, b, axis).None? <==> !a.WildcardShape? && !b.WildcardShape?)
  {
    ErrorForArgumentsIsFirstError([a, b, axis]);
    assert [a, b, axis][1..] == [b, axis] && [b, axis][1..] == [axis];
    if !IsError(a) && !IsError(b) {
      assert ErrorForArguments([a, b, axis]) == ErrorForArguments([axis]);
    }
  }

  /** Equal dims shapes joined on an axis of wildcards give back the same dims (ConcatOnAxisTest). */
  lemma ConcatWildcardAxisExample(v: int, w: int)
    ensures var s := DimShape([DefaultWildcardDim, NumericDim(v, None), NumericDim(w, None)], None);
      ConcatOnAxis(s, s, NumericDim(0, None)) == Some(s)
  {
    var s := DimShape([DefaultWildcardDim, NumericDim(v, None), NumericDim(w, None)], None);
    ErrorForArgumentsIsFirstError([s, s, NumericDim(0, None)]);
    ArithmeticOutcomes(Add, DefaultWildcardDim, DefaultWildcardDim);
    DimIntersectEqual(NumericDim(v, None), NumericDim(v, None), ErrorPrefix);
    DimIntersectEqual(NumericDim(w, None), NumericDim(w, None), ErrorPrefix);
    var newDims := NewDims(s, s, 0);
    assert FirstErrorDim(newDims, 0).None?;
    assert newDims == s.dims;
  }

  /** Numbers concatenate on the axis and must agree elsewhere (ConcatOnAxisTest: [3,4,2] and [2,4,2]). */
  lemma ConcatNumbersExample(x: int, y: int, v: int, w: int)
    ensures var s1, s2 := DimShape([NumericDim(x, None), NumericDim(v, None), NumericDim(w, None)], None),
                          DimShape([NumericDim(y, None), NumericDim(v, None), NumericDim(w, None)], None);
      ConcatDimShapes(s1, s2, 0) == DimShape([NumericDim(x + y, None), NumericDim(v, None), NumericDim(w, None)], None)
  {
    var s1, s2 := DimShape([NumericDim(x, None), NumericDim(v, None), NumericDim(w, None)], None),
                  DimShape([NumericDim(y, None), NumericDim(v, None), NumericDim(w, None)], None);
    PlusTimesOnNumbers(x, y);
    DimIntersectNumerics(v, v, ErrorPrefix);
    DimIntersectNumerics(w, w, ErrorPrefix);
    var newDims := NewDims(s1, s2, 0);
    assert FirstErrorDim(newDims, 0).None?;
  }

  /** Unequal numbers off the axis make the whole result an ERROR (ConcatOnAxisTest). */
  lemma ConcatMismatchExample(x: int, y: int, v: int, w: int)
    requires x != y
    ensures var s1, s2 := DimShape([NumericDim(x, None), NumericDim(v, None), NumericDim(w, None)], None),
                          DimShape([NumericDim(y, None), NumericDim(v, None), NumericDim(w, None)], None);
      ConcatDimShapes(s1, s2, 1).ErrorShape? && ConcatDimShapes(s1, s2, 1).exc.kind == Failure
  {
    var s1, s2 := DimShape([NumericDim(x, None), NumericDim(v, None), NumericDim(w, None)], None),
                  DimShape([NumericDim(y, None), NumericDim(v, None), NumericDim(w, None)], None);
    DimIntersectNumerics(x, y, ErrorPrefix);
    ConcatDimShapesOutcomes(s1, s2, 1);
    assert NewDim(s1.dims[0], s2.dims[0], 0 == 1).ErrorDim?;
  }
}
