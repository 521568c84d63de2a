/** Type tests on STypes and the integer view of a concrete dim shape. */
module STypeUtils {
  import opened Wrappers
  import opened STypes

  /** `isError`: one of the three error classes. */
  predicate IsError(t: SType)
  {
    t.ErrorDim? || t.ErrorShape? || t.ErrorUnknownClass?
  }

  /** `isSymbolic`: a symbolic dim or a symbolic shape. */
  predicate IsSymbolic(t: SType)
  {
    t.SymbolicDim? || t.SymbolicShape?
  }

  /** No value is both an error and a symbol, and every error value carries its error. */
  lemma ErrorAndSymbolDisjoint(t: SType)
    ensures !(IsError(t) && IsSymbolic(t))
    ensures IsError(t) ==> Error(t).Some?
  {
  }

  predicate AllNumeric(ds: seq<SType>)
  {
    forall i :: 0 <= i < |ds| ==> ds[i].NumericDim?
  }

  /** `asListOfInt`: the values of a dim shape made only of numeric dims, in order; `require` throws otherwise. */
  function AsListOfInt(t: SType): (r: Result<seq<int>>)
    requires IsShape(t)
    ensures r.Ok? <==> t.DimShape? && AllNumeric(t.dims)
    ensures r.Fail? ==> r.thrown == FailedRequirement()
    ensures r.Ok? ==> |r.value| == Rank(t) && forall i :: 0 <= i < |r.value| ==> r.value[i] == t.dims[i].value
  {
    if t.DimShape? && AllNumeric(t.dims) then
      Ok(seq(|t.dims|, i requires 0 <= i < |t.dims| && AllNumeric(t.dims) => t.dims[i].value))
    else Fail(FailedRequirement())
  }
}
