/**
 * The `flatten` shape function: the first `n` dims are kept and the rest collapse into one dim, their
 * `times`-product (a product that does not reduce becomes the plain `Dim`).
 */
module Flatten {
  import opened Wrappers
  import opened Strings
  import opened STypes
  import opened STypeUtils
  import opened ShapeFunctionUtils
  import opened DimArithmetic

  /** The reducing step `times(x, y) ?: WildcardDim.DEFAULT`. */
  function TimesOrDim(x: SType, y: SType): (d: SType)
    requires IsDim(x) && IsDim(y)
    ensures IsDim(d)
  {
    match Times(x, y)
    case Some(p) => p
    case None => DefaultWildcardDim
  }

  predicate AllDims(ds: seq<SType>)
  {
    forall i :: 0 <= i < |ds| ==> IsDim(ds[i])
  }

  /** `reduce` from the accumulator `acc` over `ds`, left to right. */
  function ReduceTimes(acc: SType, ds: seq<SType>): (d: SType)
    requires IsDim(acc) && AllDims(ds)
    ensures IsDim(d)
    decreases |ds|
  {
    if ds == [] then acc else ReduceTimes(TimesOrDim(acc, ds[0]), ds[1..])
  }

  function InvalidArguments(s: SType, n: int): string
  {
    "Invalid arguments to flatten: " + Show(s) + " and " + IntToString(n)
  }

  /** The kept prefix, followed by the product of the rest when the rest is not empty. */
  function FlattenedDims(ds: seq<SType>, n: nat): (r: seq<SType>)
    requires n <= |ds| && AllDims(ds)
  {
    ds[..n] + (if n < |ds| then [ReduceTimes(ds[n], ds[n + 1..])] else [])
  }

  /** `flatten`. */
  function Flatten(s: SType, numAxesToKeep: SType): (r: Option<SType>)
    requires IsShape(s) && IsDim(numAxesToKeep) && WellKinded(s)
  {
    match ErrorForArguments([s, numAxesToKeep])
    case Some(e) => Some(ErrorShape(e))
    case None =>
      if ContainsIrreducibleArguments([s, numAxesToKeep]) then None
      else if s.DimShape? && numAxesToKeep.NumericDim? then
        var n := numAxesToKeep.value;
        if n < 0 || n > Rank(s) then Some(ErrorShape(STypeFailure(InvalidArguments(s, n))))
        else Some(DimShape(FlattenedDims(s.dims, n), None))
      else if s.WildcardShape? then Some(DefaultWildcardShape)
      else None
  }

  // ---------------------------------------------------------------------------------------------
  // Properties

  /** The product of the values of numeric dims. */
  function Product(ds: seq<SType>): int
    requires forall i :: 0 <= i < |ds| ==> ds[i].NumericDim?
  {
    if ds == [] then 1 else ds[0].value * Product(ds[1..])
  }

  predicate NoErrorDims(ds: seq<SType>)
  {
    forall i :: 0 <= i < |ds| ==> !ds[i].ErrorDim?
  }

  /** On numbers the reducing step multiplies; an error on either side gives an ErrorDim; otherwise, `Dim`. */
  lemma TimesOrDimCases(x: SType, y: SType)
    requires IsDim(x) && IsDim(y)
    ensures x.NumericDim? && y.NumericDim? ==> TimesOrDim(x, y) == NumericDim(x.value * y.value, None)
    ensures TimesOrDim(x, y).ErrorDim? <==> x.ErrorDim? || y.ErrorDim?
    ensures !x.ErrorDim? && !y.ErrorDim? && !(x.NumericDim? && y.NumericDim?) ==> TimesOrDim(x, y) == DefaultWildcardDim
  {
    ArithmeticOutcomes(Mul, x, y);
  }

  /**
   * The collapsed dim: an ErrorDim exactly when one of the collapsed dims is; on numbers alone, a number
   * whose value is the product; with no error but some non-number among two or more dims, `Dim`.
   */
  lemma {:induction false} ReduceTimesOutcome(acc: SType, ds: seq<SType>)
    requires IsDim(acc) && AllDims(ds)
    ensures ReduceTimes(acc, ds).ErrorDim? <==> acc.ErrorDim? || !NoErrorDims(ds)
    ensures acc.NumericDim? && (forall i :: 0 <= i < |ds| ==> ds[i].NumericDim?) ==>
      ReduceTimes(acc, ds).NumericDim? && ReduceTimes(acc, ds).value == acc.value * Product(ds)
    ensures !acc.ErrorDim? && NoErrorDims(ds) && ds != [] && !(acc.NumericDim? && forall i :: 0 <= i < |ds| ==> ds[i].NumericDim?) ==>
      ReduceTimes(acc, ds) == DefaultWildcardDim
    decreases |ds|
  {
    if ds != [] {
      var next := TimesOrDim(acc, ds[0]);
      TimesOrDimCases(acc, ds[0]);
      ReduceTimesOutcome(next, ds[1..]);
      assert forall i :: 1 <= i < |ds| ==> ds[i] == ds[1..][i - 1];
      assert NoErrorDims(ds) <==> !ds[0].ErrorDim? && NoErrorDims(ds[1..]) by {
        if !ds[0].ErrorDim? && NoErrorDims(ds[1..]) {
          forall i | 0 <= i < |ds| ensures !ds[i].ErrorDim? {
            if i > 0 { assert ds[i] == ds[1..][i - 1]; }
          }
        }
      }
      if acc.NumericDim? && forall i :: 0 <= i < |ds| ==> ds[i].NumericDim? {
        assert acc.value * ds[0].value * Product(ds[1..]) == acc.value * (ds[0].value * Product(ds[1..]));
      }
      if !acc.ErrorDim? && NoErrorDims(ds) && !(acc.NumericDim? && forall i :: 0 <= i < |ds| ==> ds[i].NumericDim?) {
        if acc.NumericDim? && ds[0].NumericDim? {
          assert !forall i :: 0 <= i < |ds[1..]| ==> ds[1..][i].NumericDim?;
          assert ds[1..] != [];
        } else {
          assert next == DefaultWildcardDim;
          if ds[1..] != [] {
            assert !next.NumericDim?;
          }
        }
      }
    }
  }

  lemma ErrorsOfFlatten(s: SType, n: SType)
    requires IsShape(s) && IsDim(n)
    ensures ErrorForArguments([s, n]).None? <==> !s.ErrorShape? && !n.ErrorDim?
    ensures s.ErrorShape? ==> ErrorForArguments([s, n]) == Some(ArgumentFailure(s))
    ensures !s.ErrorShape? && n.ErrorDim? ==> ErrorForArguments([s, n]) == Some(ArgumentFailure(n))
  {
    ErrorForArgumentsIsFirstError([s, n]);
  }

  /**
   * The outcomes of `flatten`: the first error argument's failure; no result for a symbol or a call;
   * for a dim shape and a number `n`, an ERROR when `n` lies outside `[0, rank]`; a wildcard shape for
   * a wildcard shape.
   */
  lemma FlattenOutcomes(s: SType, n: SType)
    requires IsShape(s) && IsDim(n) && WellKinded(s)
    ensures s.ErrorShape? ==> Flatten(s, n) == Some(ErrorShape(ArgumentFailure(s)))
    ensures !s.ErrorShape? && n.ErrorDim? ==> Flatten(s, n) == Some(ErrorShape(ArgumentFailure(n)))
    ensures !s.ErrorShape? && !n.ErrorDim? ==>
      && (s.ShapeFunctionCall? || s.SymbolicShape? || n.SymbolicDim? ==> Flatten(s, n).None?)
      && (s.WildcardShape? && !n.SymbolicDim? ==> Flatten(s, n) == Some(DefaultWildcardShape))
      && (s.DimShape? && n.NumericDim? && (n.value < 0 || n.value > Rank(s)) ==>
            Flatten(s, n) == Some(ErrorShape(STypeFailure(InvalidArguments(s, n.value)))))
  {
    ErrorsOfFlatten(s, n);
    var args := [s, n];
    if s.ShapeFunctionCall? || s.SymbolicShape? {
      assert args[0] == s;
    } else if n.SymbolicDim? {
      assert args[1] == n;
    } else {
      assert !ContainsIrreducibleArguments(args) by {
        forall i | 0 <= i < 2 ensures !(args[i].ShapeFunctionCall? || IsSymbolic(args[i])) {
        }
      }
    }
  }

  /**
   * A successful flatten keeps the first `n` dims; after them comes one dim collapsing the rest, so the
   * rank is `n + 1` when `n` is below the rank and `n` when it equals it.
   */
  lemma FlattenResult(s: SType, n: nat)
    requires s.DimShape? && WellKinded(s) && n <= Rank(s)
    ensures var r := Flatten(s, NumericDim(n, None));
      && r == Some(DimShape(FlattenedDims(s.dims, n), None))
      && Rank(r.value) == (if n < Rank(s) then n + 1 else n)
      && r.value.dims[..n] == s.dims[..n]
      && (n < Rank(s) ==> r.value.dims[n] == ReduceTimes(s.dims[n], s.dims[n + 1..]))
  {
    ErrorsOfFlatten(s, NumericDim(n, None));
    var args := [s, NumericDim(n, None)];
    assert !ContainsIrreducibleArguments(args) by {
      forall i | 0 <= i < 2 ensures !(args[i].ShapeFunctionCall? || IsSymbolic(args[i])) {
      }
    }
  }

  /** Flattening everything after the first axis of a numeric shape multiplies the trailing sizes. */
  lemma FlattenNumbers(x: int, y: int, z: int)
    ensures Flatten(DimShape([NumericDim(x, None), NumericDim(y, None), NumericDim(z, None)], None), NumericDim(1, None)) ==
      Some(DimShape([NumericDim(x, None), NumericDim(y * z, None)], None))
  {
    var s := DimShape([NumericDim(x, None), NumericDim(y, None), NumericDim(z, None)], None);
    FlattenResult(s, 1);
    assert s.dims[..1] == [NumericDim(x, None)] && s.dims[2..] == [NumericDim(z, None)];
    TimesOrDimCases(NumericDim(y, None), NumericDim(z, None));
    assert ReduceTimes(NumericDim(y, None), [NumericDim(z, None)]) == ReduceTimes(NumericDim(y * z, None), []);
    assert FlattenedDims(s.dims, 1) == [NumericDim(x, None)] + [NumericDim(y * z, None)] == [NumericDim(x, None), NumericDim(y * z, None)];
  }
}
