/**
 * The dim arithmetic shape functions `plus` and `times`: numbers combine, a wildcard absorbs anything,
 * an error argument gives an ErrorDim, and a symbol leaves the call unreduced (`None`, Kotlin's null).
 */
module DimArithmetic {
  import opened Wrappers
  import opened STypes
  import opened STypeUtils
  import opened ShapeFunctionUtils

  /** The operator a dim arithmetic function applies to two numeric dims. */
  datatype Operator = Add | Mul

  function ApplyOperator(op: Operator, x: int, y: int): int
  {
    match op
    case Add => x + y
    case Mul => x * y
  }

  /** The shared body of `plus` and `times`. */
  function Arithmetic(op: Operator, a: SType, b: SType): (r: Option<SType>)
    requires IsDim(a) && IsDim(b)
    ensures r.Some? ==> IsDim(r.value)
  {
    match ErrorForArguments([a, b])
    case Some(e) => Some(ErrorDim(e))
    case None =>
      if a.NumericDim? && b.NumericDim? then Some(NumericDim(ApplyOperator(op, a.value, b.value), None))
      else if a.WildcardDim? || b.WildcardDim? then Some(DefaultWildcardDim)
      else None
  }

  /** `plus`. */
  function Plus(a: SType, b: SType): (r: Option<SType>)
    requires IsDim(a) && IsDim(b)
    ensures r.Some? ==> IsDim(r.value)
  {
    Arithmetic(Add, a, b)
  }

  /** `times` (its error lookup passes the name "plus", which only an unreachable fallback message would show). */
  function Times(a: SType, b: SType): (r: Option<SType>)
    requires IsDim(a) && IsDim(b)
    ensures r.Some? ==> IsDim(r.value)
  {
    Arithmetic(Mul, a, b)
  }

  // ---------------------------------------------------------------------------------------------
  // Properties

  /**
   * The four outcomes, by the kinds of the arguments: an ErrorDim carrying the first error argument's
   * failure; the operator applied to two numbers; the plain `Dim` when a wildcard takes part; and no
   * result exactly when, with no error and no wildcard, a symbol takes part.
   */
  lemma ArithmeticOutcomes(op: Operator, a: SType, b: SType)
    requires IsDim(a) && IsDim(b)
    ensures a.ErrorDim? ==> Arithmetic(op, a, b) == Some(ErrorDim(ArgumentFailure(a)))
    ensures !a.ErrorDim? && b.ErrorDim? ==> Arithmetic(op, a, b) == Some(ErrorDim(ArgumentFailure(b)))
    ensures (Arithmetic(op, a, b).Some? && Arithmetic(op, a, b).value.ErrorDim?) <==> (a.ErrorDim? || b.ErrorDim?)
    ensures a.NumericDim? && b.NumericDim? ==> Arithmetic(op, a, b) == Some(NumericDim(ApplyOperator(op, a.value, b.value), None))
    ensures !a.ErrorDim? && !b.ErrorDim? && (a.WildcardDim? || b.WildcardDim?) ==> Arithmetic(op, a, b) == Some(DefaultWildcardDim)
    ensures Arithmetic(op, a, b).None? <==>
      !a.ErrorDim? && !b.ErrorDim? && !a.WildcardDim? && !b.WildcardDim? && (a.SymbolicDim? || b.SymbolicDim?)
  {
    ErrorForArgumentsIsFirstError([a, b]);
    ErrorsAreErrorDims(a);
    ErrorsAreErrorDims(b);
  }

  lemma ErrorsAreErrorDims(d: SType)
    requires IsDim(d)
    ensures IsError(d) <==> d.ErrorDim?
  {
  }

  /** Both functions are commutative when no argument is an error (with errors, the left error wins). */
  lemma ArithmeticCommutes(op: Operator, a: SType, b: SType)
    requires IsDim(a) && IsDim(b) && !a.ErrorDim? && !b.ErrorDim?
    ensures Arithmetic(op, a, b) == Arithmetic(op, b, a)
  {
    ArithmeticOutcomes(op, a, b);
    ArithmeticOutcomes(op, b, a);
  }

  /** `plus` adds numbers; `times` multiplies them; both are commutative on error-free arguments. */
  lemma PlusTimesOnNumbers(v: int, w: int)
    ensures Plus(NumericDim(v, None), NumericDim(w, None)) == Some(NumericDim(v + w, None))
    ensures Times(NumericDim(v, None), NumericDim(w, None)) == Some(NumericDim(v * w, None))
  {
    ArithmeticOutcomes(Add, NumericDim(v, None), NumericDim(w, None));
    ArithmeticOutcomes(Mul, NumericDim(v, None), NumericDim(w, None));
  }

  /** Zero and one are the identities of `plus` and `times` on numeric dims (whose own error is dropped). */
  lemma Identities(a: SType)
    requires a.NumericDim?
    ensures Plus(a, NumericDim(0, None)) == Some(NumericDim(a.value, None))
    ensures Times(NumericDim(1, None), a) == Some(NumericDim(a.value, None))
  {
    ArithmeticOutcomes(Add, a, NumericDim(0, None));
    ArithmeticOutcomes(Mul, NumericDim(1, None), a);
  }

  /** A symbol against a number leaves the call unreduced, and a wildcard wins over a symbol. */
  lemma SymbolsDoNotReduce(s: SType, v: int, e: Option<STypeException>)
    requires s.SymbolicDim?
    ensures Plus(s, NumericDim(v, None)).None? && Times(NumericDim(v, None), s).None?
    ensures Plus(s, WildcardDim(e)) == Some(DefaultWildcardDim)
  {
    ArithmeticOutcomes(Add, s, NumericDim(v, None));
    ArithmeticOutcomes(Mul, NumericDim(v, None), s);
    ArithmeticOutcomes(Add, s, WildcardDim(e));
  }
}
