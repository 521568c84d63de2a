/** The `concat` shape function: the dims of two dim shapes one after the other. */
module Concat {
  import opened Wrappers
  import opened STypes
  import opened STypeUtils
  import opened ShapeFunctionUtils

  const WildcardWarning: string := "concat: Cannot guarantee dimension matching for wildcard shapes"

  /** `concat`. */
  function Concat(a: SType, b: SType): (r: Option<SType>)
    requires IsShape(a) && IsShape(b)
  {
    match ErrorForArguments([a, b])
    case Some(e) => Some(ErrorShape(e))
    case None =>
      if a.DimShape? && b.DimShape? then Some(DimShape(a.dims + b.dims, None))
      else if a.WildcardShape? || b.WildcardShape? then Some(WildcardShape(Some(STypeStrictModeException(WildcardWarning))))
      else None
  }

  /**
   * The outcomes by operand kind: the first error operand's failure; the dims of two dim shapes in order,
   * so that the rank is the sum and each operand is a slice of the result; a warned wildcard when a
   * wildcard shape takes part; and no result exactly when, without errors or wildcards, a symbol or a
   * call takes part.
   */
  lemma ConcatOutcomes(a: SType, b: SType)
    requires IsShape(a) && IsShape(b)
    ensures IsError(a) ==> Concat(a, b) == Some(ErrorShape(ArgumentFailure(a)))
    ensures !IsError(a) && IsError(b) ==> Concat(a, b) == Some(ErrorShape(ArgumentFailure(b)))
    ensures a.DimShape? && b.DimShape? ==>
      && Concat(a, b).Some? && Concat(a, b).value.DimShape? && Concat(a, b).value.err.None?
      && Rank(Concat(a, b).value) == Rank(a) + Rank(b)
      && Concat(a, b).value.dims[..Rank(a)] == a.dims && Concat(a, b).value.dims[Rank(a)..] == b.dims
    ensures !IsError(a) && !IsError(b) && !(a.DimShape? && b.DimShape?) && (a.WildcardShape? || b.WildcardShape?) ==>
      Concat(a, b) == Some(WildcardShape(Some(STypeStrictModeException(WildcardWarning))))
      && Level(Concat(a, b).value.err.value) == WARNING
    ensures Concat(a, b).None? <==>
      !IsError(a) && !IsError(b) && !a.WildcardShape? && !b.WildcardShape? && !(a.DimShape? && b.DimShape?)
    ensures Concat(a, b).None? ==> ContainsIrreducibleArguments([a, b])
  {
    ErrorForArgumentsIsFirstError([a, b]);
    if Concat(a, b).None? {
      if a.DimShape? {
        assert b.ShapeFunctionCall? || IsSymbolic(b);
        assert [a, b][1] == b;
      } else {
        assert a.ShapeFunctionCall? || IsSymbolic(a);
        assert [a, b][0] == a;
      }
    }
  }

  /** Concatenation of dim shapes is associative (ConcatTest: [1,2] and [3,4,5] give [1,2,3,4,5]). */
  lemma ConcatAssociative(a: SType, b: SType, c: SType)
    requires a.DimShape? && b.DimShape? && c.DimShape? && a.err.None? && b.err.None? && c.err.None?
    ensures Concat(a, b).Some? && Concat(b, c).Some?
    ensures Concat(Concat(a, b).value, c) == Concat(a, Concat(b, c).value)
  {
    ErrorForArgumentsIsFirstError([a, b]);
    ErrorForArgumentsIsFirstError([b, c]);
    var ab, bc := DimShape(a.dims + b.dims, None), DimShape(b.dims + c.dims, None);
    ErrorForArgumentsIsFirstError([ab, c]);
    ErrorForArgumentsIsFirstError([a, bc]);
    assert (a.dims + b.dims) + c.dims == a.dims + (b.dims + c.dims);
  }
}
