/**
 * The `slice` shape function: the size of one axis of a dim shape cut down to `[start, end)`, with the
 * end clipped to the axis size. Only the dim arguments are checked for errors.
 */
module SliceFunction {
  import opened Wrappers
  import opened Strings
  import opened STypes
  import opened STypeUtils
  import opened ShapeFunctionUtils

  function Min(x: int, y: int): (m: int)
    ensures m <= x && m <= y && (m == x || m == y)
  {
    if x <= y then x else y
  }

  function AxisInvalid(s: SType, axis: SType): string
    requires s.DimShape?
  {
    "slice: axis " + Show(axis) + " invalid for shape " + Show(s) + " of rank " + IntToString(Rank(s))
  }

  function EndBeforeStart(start: SType, end: SType): string
  {
    "slice: end axis " + Show(end) + " should be greater than or equal to start axis " + Show(start)
  }

  /** `slice`. */
  function Slice(s: SType, start: SType, end: SType, axis: SType): (r: Option<SType>)
    requires IsShape(s) && IsDim(start) && IsDim(end) && IsDim(axis)
  {
    match ErrorForArguments([start, end, axis])
    case Some(e) => Some(ErrorShape(e))
    case None =>
      if ContainsIrreducibleArguments([s, start, end, axis]) then None
      else if s.DimShape? && start.NumericDim? && end.NumericDim? && axis.NumericDim? then
        if axis.value < 0 || axis.value >= Rank(s) then Some(ErrorShape(STypeFailure(AxisInvalid(s, axis))))
        else if end.value < start.value then Some(ErrorShape(STypeFailure(EndBeforeStart(start, end))))
        else if !s.dims[axis.value].NumericDim? then None
        else
          var sliceSize := Min(s.dims[axis.value].value, end.value) - start.value;
          Some(DimShape(s.dims[axis.value := NumericDim(sliceSize, None)], None))
      else if s.WildcardShape? then Some(DefaultWildcardShape)
      else None
  }

  // ---------------------------------------------------------------------------------------------
  // Properties

  lemma ErrorsInDims(start: SType, end: SType, axis: SType)
    requires IsDim(start) && IsDim(end) && IsDim(axis)
    ensures ErrorForArguments([start, end, axis]).None? <==> !start.ErrorDim? && !end.ErrorDim? && !axis.ErrorDim?
    ensures start.ErrorDim? ==> ErrorForArguments([start, end, axis]) == Some(ArgumentFailure(start))
    ensures !start.ErrorDim? && end.ErrorDim? ==> ErrorForArguments([start, end, axis]) == Some(ArgumentFailure(end))
    ensures !start.ErrorDim? && !end.ErrorDim? && axis.ErrorDim? ==> ErrorForArguments([start, end, axis]) == Some(ArgumentFailure(axis))
  {
    ErrorForArgumentsIsFirstError([start, end, axis]);
    assert [start, end, axis][1..] == [end, axis] && [end, axis][1..] == [axis];
    if !start.ErrorDim? && !end.ErrorDim? {
      assert ErrorForArguments([start, end, axis]) == ErrorForArguments([axis]);
    }
  }

  /**
   * The outcomes of `slice`: the first erroneous dim argument's failure; no result for a symbol or a
   * call; an ERROR for an axis outside the rank or an end before the start; no result when the axis
   * dim is not a number; a wildcard shape for a wildcard shape; no result for any other shape.
   */
  lemma SliceOutcomes(s: SType, start: SType, end: SType, axis: SType)
    requires IsShape(s) && IsDim(start) && IsDim(end) && IsDim(axis)
    ensures start.ErrorDim? ==> Slice(s, start, end, axis) == Some(ErrorShape(ArgumentFailure(start)))
    ensures !start.ErrorDim? && end.ErrorDim? ==> Slice(s, start, end, axis) == Some(ErrorShape(ArgumentFailure(end)))
    ensures !start.ErrorDim? && !end.ErrorDim? && axis.ErrorDim? ==> Slice(s, start, end, axis) == Some(ErrorShape(ArgumentFailure(axis)))
    ensures !start.ErrorDim? && !end.ErrorDim? && !axis.ErrorDim? ==>
      && (s.ShapeFunctionCall? || s.SymbolicShape? || start.SymbolicDim? || end.SymbolicDim? || axis.SymbolicDim? ==> Slice(s, start, end, axis).None?)
      && (s.ErrorShape? ==> Slice(s, start, end, axis).None?)
      && (s.WildcardShape? && !start.SymbolicDim? && !end.SymbolicDim? && !axis.SymbolicDim? ==> Slice(s, start, end, axis) == Some(DefaultWildcardShape))
      && (s.DimShape? && start.NumericDim? && end.NumericDim? && axis.NumericDim? ==>
            && ((axis.value < 0 || axis.value >= Rank(s)) ==> Slice(s, start, end, axis) == Some(ErrorShape(STypeFailure(AxisInvalid(s, axis)))))
            && (0 <= axis.value < Rank(s) && end.value < start.value ==> Slice(s, start, end, axis) == Some(ErrorShape(STypeFailure(EndBeforeStart(start, end)))))
            && (0 <= axis.value < Rank(s) && start.value <= end.value && !s.dims[axis.value].NumericDim? ==> Slice(s, start, end, axis).None?))
  {
    ErrorsInDims(start, end, axis);
    if !start.ErrorDim? && !end.ErrorDim? && !axis.ErrorDim? && (s.ShapeFunctionCall? || s.SymbolicShape?) {
      assert [s, start, end, axis][0] == s;
    }
    if !start.SymbolicDim? && !end.SymbolicDim? && !axis.SymbolicDim? && (s.WildcardShape? || s.ErrorShape? || s.DimShape?) {
      assert !ContainsIrreducibleArguments([s, start, end, axis]) by {
        forall i | 0 <= i < 4 ensures !([s, start, end, axis][i].ShapeFunctionCall? || IsSymbolic([s, start, end, axis][i])) {
        }
      }
    } else if start.SymbolicDim? {
      assert [s, start, end, axis][1] == start;
    } else if end.SymbolicDim? {
      assert [s, start, end, axis][2] == end;
    } else if axis.SymbolicDim? {
      assert [s, start, end, axis][3] == axis;
    }
  }

  /**
   * A successful slice keeps the rank and every other dim; the axis dim becomes the number
   * `min(size, end) - start`, which is at most `end - start` and at most the axis size minus the start.
   */
  lemma SliceResult(s: SType, start: int, end: int, axis: int)
    requires s.DimShape? && WellKinded(s) && 0 <= axis < Rank(s) && start <= end && s.dims[axis].NumericDim?
    ensures var r := Slice(s, NumericDim(start, None), NumericDim(end, None), NumericDim(axis, None));
      && r.Some? && r.value.DimShape? && r.value.err.None?
      && Rank(r.value) == Rank(s)
      && (forall i :: 0 <= i < Rank(s) && i != axis ==> r.value.dims[i] == s.dims[i])
      && r.value.dims[axis] == NumericDim(Min(s.dims[axis].value, end) - start, None)
      && r.value.dims[axis].value <= end - start
      && r.value.dims[axis].value <= s.dims[axis].value - start
      && (start <= s.dims[axis].value ==> r.value.dims[axis].value >= 0)
  {
    var args := [s, NumericDim(start, None), NumericDim(end, None), NumericDim(axis, None)];
    ErrorsInDims(NumericDim(start, None), NumericDim(end, None), NumericDim(axis, None));
    assert !ContainsIrreducibleArguments(args) by {
      forall i | 0 <= i < 4 ensures !(args[i].ShapeFunctionCall? || IsSymbolic(args[i])) {
      }
    }
  }

  /** Slicing the whole axis, `[0, size)`, or beyond it, gives the shape back. */
  lemma FullSliceIsIdentity(s: SType, end: int, axis: int)
    requires s.DimShape? && WellKinded(s) && s.err.None? && 0 <= axis < Rank(s) && s.dims[axis].NumericDim?
    requires s.dims[axis].err.None? && 0 <= s.dims[axis].value <= end
    ensures Slice(s, NumericDim(0, None), NumericDim(end, None), NumericDim(axis, None)) == Some(s)
  {
    SliceResult(s, 0, end, axis);
    var r := Slice(s, NumericDim(0, None), NumericDim(end, None), NumericDim(axis, None));
    assert r.value.dims == s.dims;
  }

  /** Nothing checks the start against the axis size: a start beyond it gives a negative dim. */
  lemma StartBeyondAxisIsNegative(size: int, start: int)
    requires start > size
    ensures var s := DimShape([NumericDim(size, None)], None);
      Slice(s, NumericDim(start, None), NumericDim(start, None), NumericDim(0, None)) ==
        Some(DimShape([NumericDim(size - start, None)], None))
      && size - start < 0
  {
    var s := DimShape([NumericDim(size, None)], None);
    SliceResult(s, start, start, 0);
    assert s.dims[0 := NumericDim(size - start, None)] == [NumericDim(size - start, None)];
  }
}
