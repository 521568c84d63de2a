/**
 * The `matmul` shape function, after the batched matrix product of DiffKt: the inner dims must agree,
 * rank-1 operands are padded to matrices, and the leading (batch) dims are right-aligned and matched
 * pairwise, a missing batch dim reading as 1.
 */
module Matmul {
  import opened Wrappers
  import opened Strings
  import opened STypes
  import opened STypeUtils
  import opened ShapeFunctionUtils

  const WildcardShapesWarning: string := "matmul: Dimensions of Shape and Shape are not guaranteed to be compatible."
  const WildcardBatchWarning: string := "matmul: Wildcard dimensions not guaranteed to be compatible"

  function IncompatibleBatching(d1: SType, d2: SType): string
  {
    "matmul: Incompatible batching dimensions " + Show(d1) + " and " + Show(d2)
  }

  function MayNotBeCompatible(d1: SType, d2: SType): string
  {
    "matmul: Dimension " + Show(d1) + " may not be compatible with " + Show(d2)
  }

  function IncompatibleInner(a: SType, b: SType, k1: SType, k2: SType): string
  {
    "Shapes " + Show(a) + " and " + Show(b) + " have incompatible inner dimensions for matmul: " + Show(k1) + " and " + Show(k2)
  }

  function InnerNotGuaranteed(k1: SType, k2: SType): string
  {
    "Dimensions " + Show(k1) + ", " + Show(k2) + " not guaranteed compatible for matmul"
  }

  /**
   * `batchDimMatch`: equal dims pass; errors propagate; a 1 yields the other dim; two dims of one class
   * that differ are an error (two wildcards only a warning); of two classes, the numeric, else the
   * symbolic one is kept with a warning. (The equality re-test in the symbolic case of the source is
   * already false there and is dropped.)
   */
  function BatchDimMatch(d1: SType, d2: SType): (d: SType)
    requires IsDim(d1) && IsDim(d2)
    ensures IsDim(d)
  {
    if SEq(d1, d2) then d1
    else if d1.ErrorDim? then d1
    else if d2.ErrorDim? then d2
    else if IsOne(d1) then d2
    else if IsOne(d2) then d1
    else if d1.NumericDim? && d2.NumericDim? then ErrorDim(STypeFailure(IncompatibleBatching(d1, d2)))
    else if d1.WildcardDim? && d2.WildcardDim? then WildcardDim(Some(STypeStrictModeException(WildcardBatchWarning)))
    else if d1.SymbolicDim? && d2.SymbolicDim? then ErrorDim(STypeFailure(IncompatibleBatching(d1, d2)))
    else if d1.NumericDim? then WithException(d1, STypeStrictModeException(MayNotBeCompatible(d1, d2)))
    else if d2.NumericDim? then WithException(d2, STypeStrictModeException(MayNotBeCompatible(d1, d2)))
    else if d1.SymbolicDim? then WithException(d1, STypeStrictModeException(MayNotBeCompatible(d1, d2)))
    else if d2.SymbolicDim? then WithException(d2, STypeStrictModeException(MayNotBeCompatible(d1, d2)))
    else assert false; d1
  }

  /** `a` as a matrix: a rank-1 `[k]` becomes `[1, k]`. */
  function PaddedA(a: SType): (ds: seq<SType>)
    requires a.DimShape? && Rank(a) >= 1 && WellKinded(a)
    ensures |ds| >= 2 && |ds| == if Rank(a) == 1 then 2 else Rank(a)
    ensures AllDims(ds)
  {
    if Rank(a) == 1 then [One, a.dims[0]] else a.dims
  }

  /** `b` as a matrix: a rank-1 `[k]` becomes `[k, 1]`. */
  function PaddedB(b: SType): (ds: seq<SType>)
    requires b.DimShape? && Rank(b) >= 1 && WellKinded(b)
    ensures |ds| >= 2 && |ds| == if Rank(b) == 1 then 2 else Rank(b)
    ensures AllDims(ds)
  {
    if Rank(b) == 1 then [b.dims[0], One] else b.dims
  }

  function Max(x: int, y: int): (m: int)
    ensures m >= x && m >= y && (m == x || m == y)
  {
    if x >= y then x else y
  }

  predicate AllDims(ds: seq<SType>)
  {
    forall i :: 0 <= i < |ds| ==> IsDim(ds[i])
  }

  /** The batch dim of `ds` at position `i` of a result of rank `rank`, right-aligned; 1 where `ds` has none. */
  function Aligned(ds: seq<SType>, rank: nat, i: nat): (d: SType)
    requires |ds| <= rank && AllDims(ds)
    ensures IsDim(d)
  {
    var offset := rank - |ds|;
    if i < offset || i - offset >= |ds| then One else ds[i - offset]
  }

  /** The matched batch dims: the first `rank - 2` positions of the right-aligned operands. */
  function BatchDims(pa: seq<SType>, pb: seq<SType>): (ds: seq<SType>)
    requires |pa| >= 2 && |pb| >= 2 && AllDims(pa) && AllDims(pb)
    ensures |ds| == Max(|pa|, |pb|) - 2
    ensures forall i :: 0 <= i < |ds| ==> ds[i] == BatchDimMatch(Aligned(pa, Max(|pa|, |pb|), i), Aligned(pb, Max(|pa|, |pb|), i))
  {
    var rank := Max(|pa|, |pb|);
    seq(rank - 2, i requires 0 <= i < rank - 2 => BatchDimMatch(Aligned(pa, rank, i), Aligned(pb, rank, i)))
  }

  /** The warning on the inner dims: they are not the same dim, or one of them is a wildcard. */
  function InnerWarning(k1: SType, k2: SType): (w: Option<STypeException>)
    ensures w.Some? <==> !SEq(k1, k2) || k1.WildcardDim? || k2.WildcardDim?
    ensures w.Some? ==> Level(w.value) == WARNING
  {
    if !SEq(k1, k2) then Some(STypeStrictModeException(InnerNotGuaranteed(k1, k2)))
    else if k1.WildcardDim? || k2.WildcardDim? then Some(STypeStrictModeException(InnerNotGuaranteed(k1, k2)))
    else None
  }

  predicate Operand(s: SType)
  {
    s.DimShape? && Rank(s) >= 1 && WellKinded(s)
  }

  /** The rows `m` and the inner dim `k1` of the padded `a`; the inner dim `k2` and the columns `n` of the padded `b`. */
  function M(a: SType): SType
    requires Operand(a)
  {
    PaddedA(a)[|PaddedA(a)| - 2]
  }

  function K1(a: SType): SType
    requires Operand(a)
  {
    PaddedA(a)[|PaddedA(a)| - 1]
  }

  function K2(b: SType): SType
    requires Operand(b)
  {
    PaddedB(b)[|PaddedB(b)| - 2]
  }

  function N(b: SType): SType
    requires Operand(b)
  {
    PaddedB(b)[|PaddedB(b)| - 1]
  }

  /** `matmulDimShapes`. */
  function MatmulDimShapes(a: SType, b: SType): (r: SType)
    requires Operand(a) && Operand(b)
  {
    if ConflictingDims(K1(a), K2(b)) then ErrorShape(STypeFailure(IncompatibleInner(a, b, K1(a), K2(b))))
    else
      var batchDims := BatchDims(PaddedA(a), PaddedB(b));
      match FirstErrorDim(batchDims, 0)
      case Some(i) => ErrorShape(batchDims[i].exc)
      case None => DimShape(batchDims + [M(a), N(b)], InnerWarning(K1(a), K2(b)))
  }

  function WildcardOnTheRight(a: SType): string
  {
    "matmul: Cannot guarantee compatible dimensions for " + Show(a) + " and Shape."
  }

  function WildcardOnTheLeft(b: SType): string
  {
    "matmul: Cannot guarantee compatible dimensions for Shape and " + Show(b) + "."
  }

  predicate WellTyped(a: SType, b: SType)
  {
    IsShape(a) && IsShape(b) && WellKinded(a) && WellKinded(b)
  }

  /** `matmul`. */
  function Matmul(a: SType, b: SType): (r: Option<SType>)
    requires WellTyped(a, b)
  {
    match CheckMinimumRankIfExists(a, 1, "a")
    case Some(e) => Some(e)
    case None =>
      match CheckMinimumRankIfExists(b, 1, "b")
      case Some(e) => Some(e)
      case None =>
        match ErrorForArguments([a, b])
        case Some(e) => Some(ErrorShape(e))
        case None =>
          if ContainsIrreducibleArguments([a, b]) then None
          else if a.DimShape? && b.DimShape? then Some(MatmulDimShapes(a, b))
          else if a.WildcardShape? && b.WildcardShape? then
            Some(DimShape([DefaultWildcardDim, DefaultWildcardDim], Some(STypeStrictModeException(WildcardShapesWarning))))
          else if a.DimShape? && b.WildcardShape? then
            var dims := if Rank(a) == 1 then [One, DefaultWildcardDim] else a.dims[..Rank(a) - 1] + [DefaultWildcardDim];
            Some(DimShape(dims, Some(STypeStrictModeException(WildcardOnTheRight(a)))))
          else if a.WildcardShape? && b.DimShape? then
            var dims := if Rank(b) == 1 then [DefaultWildcardDim, One] else b.dims[..Rank(b) - 2] + [DefaultWildcardDim, b.dims[Rank(b) - 1]];
            Some(DimShape(dims, Some(STypeStrictModeException(WildcardOnTheLeft(b)))))
          else Some(ErrorShape(UnsupportedSTypesException("matmul", [a, b])))
  }

  // ---------------------------------------------------------------------------------------------
  // Properties

  /**
   * Batching two numbers is numpy's rule: equal sizes, or a 1 stretched to the other size; two other
   * sizes are an ERROR.
   */
  lemma BatchNumbers(v: int, w: int, e1: Option<STypeException>, e2: Option<STypeException>)
    ensures var d := BatchDimMatch(NumericDim(v, e1), NumericDim(w, e2));
      && (d.ErrorDim? <==> v != w && v != 1 && w != 1)
      && (d.ErrorDim? ==> d.exc.kind == Failure && Level(d.exc) == ERROR)
      && (!d.ErrorDim? ==> d.NumericDim? && d.value == if v == 1 then w else v)
  {
  }

  /**
   * The remaining cases of `batchDimMatch`: an error argument is passed on (the first one first); a 1
   * yields the other dim; two different symbols are an ERROR; two different wildcards give a warned
   * wildcard; and across classes the numeric dim, else the symbolic one, is kept, with a WARNING.
   */
  lemma BatchDimMatchCases(d1: SType, d2: SType)
    requires IsDim(d1) && IsDim(d2)
    ensures SEq(d1, d2) ==> BatchDimMatch(d1, d2) == d1
    ensures d1.ErrorDim? ==> BatchDimMatch(d1, d2) == d1
    ensures !d1.ErrorDim? && d2.ErrorDim? ==> BatchDimMatch(d1, d2) == d2
    ensures !SEq(d1, d2) && !d1.ErrorDim? && !d2.ErrorDim? && IsOne(d1) ==> BatchDimMatch(d1, d2) == d2
    ensures !SEq(d1, d2) && !d1.ErrorDim? && !d2.ErrorDim? && IsOne(d2) ==> BatchDimMatch(d1, d2) == d1
    ensures BatchDimMatch(d1, d2).ErrorDim? <==>
      d1.ErrorDim? || d2.ErrorDim? ||
      (!SEq(d1, d2) && !IsOne(d1) && !IsOne(d2) && ((d1.NumericDim? && d2.NumericDim?) || (d1.SymbolicDim? && d2.SymbolicDim?)))
    ensures d1.WildcardDim? && d2.WildcardDim? && !SEq(d1, d2) ==>
      BatchDimMatch(d1, d2) == WildcardDim(Some(STypeStrictModeException(WildcardBatchWarning)))
    ensures !d1.ErrorDim? && !d2.ErrorDim? && !IsOne(d1) && !IsOne(d2) ==>
      && (d1.NumericDim? && !d2.NumericDim? ==> BatchDimMatch(d1, d2) == WithException(d1, STypeStrictModeException(MayNotBeCompatible(d1, d2))))
      && (!d1.NumericDim? && d2.NumericDim? ==> BatchDimMatch(d1, d2) == WithException(d2, STypeStrictModeException(MayNotBeCompatible(d1, d2))))
      && (d1.SymbolicDim? && d2.WildcardDim? ==> BatchDimMatch(d1, d2) == WithException(d1, STypeStrictModeException(MayNotBeCompatible(d1, d2))))
      && (d1.WildcardDim? && d2.SymbolicDim? ==> BatchDimMatch(d1, d2) == WithException(d2, STypeStrictModeException(MayNotBeCompatible(d1, d2))))
  {
  }

  /**
   * Batching is symmetric, except for which error is reported and for the warnings: swapped arguments
   * give an ErrorDim together, and otherwise dims equal under the custom equality.
   */
  lemma BatchDimMatchSymmetric(d1: SType, d2: SType)
    requires IsDim(d1) && IsDim(d2) && !d1.ErrorDim? && !d2.ErrorDim?
    ensures BatchDimMatch(d1, d2).ErrorDim? == BatchDimMatch(d2, d1).ErrorDim?
    ensures !BatchDimMatch(d1, d2).ErrorDim? ==> SEq(BatchDimMatch(d1, d2), BatchDimMatch(d2, d1))
  {
    BatchDimMatchCases(d1, d2);
    BatchDimMatchCases(d2, d1);
    SEqReflexive(d1);
    SEqReflexive(d2);
  }

  predicate NoErrorDims(ds: seq<SType>)
  {
    forall i :: 0 <= i < |ds| ==> !ds[i].ErrorDim?
  }

  /** Two dim shapes: an ERROR exactly when the inner dims conflict or some batch dim is an ErrorDim. */
  lemma MatmulDimShapesFails(a: SType, b: SType)
    requires Operand(a) && Operand(b)
    ensures MatmulDimShapes(a, b).ErrorShape? || MatmulDimShapes(a, b).DimShape?
    ensures MatmulDimShapes(a, b).ErrorShape? <==> ConflictingDims(K1(a), K2(b)) || !NoErrorDims(BatchDims(PaddedA(a), PaddedB(b)))
    ensures ConflictingDims(K1(a), K2(b)) ==>
      MatmulDimShapes(a, b).exc.kind == Failure && Level(MatmulDimShapes(a, b).exc) == ERROR
  {
    var batchDims := BatchDims(PaddedA(a), PaddedB(b));
    if !NoErrorDims(batchDims) {
      var i :| 0 <= i < |batchDims| && batchDims[i].ErrorDim?;
      assert FirstErrorDim(batchDims, 0).Some?;
    }
  }

  /**
   * A successful product of two dim shapes has the rank of the larger padded operand: the matched batch
   * dims, none an error, then `m` and `n`; the inner-dim warning, if any, is its error.
   */
  lemma MatmulDimShapesResult(a: SType, b: SType)
    requires Operand(a) && Operand(b) && MatmulDimShapes(a, b).DimShape?
    ensures var r := MatmulDimShapes(a, b);
      && |r.dims| == Max(|PaddedA(a)|, |PaddedB(b)|)
      && r.dims[..|r.dims| - 2] == BatchDims(PaddedA(a), PaddedB(b))
      && NoErrorDims(r.dims[..|r.dims| - 2])
      && r.dims[|r.dims| - 2] == M(a) && r.dims[|r.dims| - 1] == N(b)
      && r.err == InnerWarning(K1(a), K2(b))
  {
    var r := MatmulDimShapes(a, b);
    var batchDims := BatchDims(PaddedA(a), PaddedB(b));
    assert r.dims == batchDims + [M(a), N(b)];
    assert r.dims[..|r.dims| - 2] == batchDims;
  }

  /** The arguments are no symbols and no calls. */
  lemma Reducible(a: SType, b: SType)
    requires !a.ShapeFunctionCall? && !IsSymbolic(a) && !b.ShapeFunctionCall? && !IsSymbolic(b)
    ensures !ContainsIrreducibleArguments([a, b])
  {
    var args := [a, b];
    forall i | 0 <= i < 2 ensures !(args[i].ShapeFunctionCall? || IsSymbolic(args[i])) {
    }
  }

  /** A rank-0 dim shape is rejected before anything else, `a` before `b`. */
  lemma MatmulRankChecks(a: SType, b: SType)
    requires WellTyped(a, b)
    ensures a.DimShape? && Rank(a) == 0 ==> Matmul(a, b) == Some(ErrorShape(STypeFailure(RankZero("a"))))
    ensures !(a.DimShape? && Rank(a) == 0) && b.DimShape? && Rank(b) == 0 ==>
      Matmul(a, b) == Some(ErrorShape(STypeFailure(RankZero("b"))))
  {
  }

  /** The rank-check message for a rank-0 operand: "<name> must have rank at least 1. Got 0". */
  function RankZero(name: string): (msg: string)
    ensures msg == name + " must have rank at least 1. Got 0"
  {
    assert IntToString(1) == "1" && IntToString(0) == "0";
    name + " must have rank at least " + IntToString(1) + ". Got " + IntToString(0)
  }

  /** Past the rank checks: the first error argument's failure; otherwise no result exactly for a symbol or a call. */
  lemma MatmulErrors(a: SType, b: SType)
    requires WellTyped(a, b) && !(a.DimShape? && Rank(a) == 0) && !(b.DimShape? && Rank(b) == 0)
    ensures IsError(a) ==> Matmul(a, b) == Some(ErrorShape(ArgumentFailure(a)))
    ensures !IsError(a) && IsError(b) ==> Matmul(a, b) == Some(ErrorShape(ArgumentFailure(b)))
    ensures !IsError(a) && !IsError(b) ==> (Matmul(a, b).None? <==> ContainsIrreducibleArguments([a, b]))
  {
    ErrorForArgumentsIsFirstError([a, b]);
    if !a.ShapeFunctionCall? && !IsSymbolic(a) && !b.ShapeFunctionCall? && !IsSymbolic(b) {
      Reducible(a, b);
    }
  }

  /**
   * Two dim shapes go to `matmulDimShapes`; two wildcards give `[Dim, Dim]` with a WARNING. Error-free
   * arguments that are no symbols and no calls are dim shapes or wildcards, so these two cases and
   * `WildcardOperands` leave the unsupported-arguments branch unreachable.
   */
  lemma MatmulReduces(a: SType, b: SType)
    requires WellTyped(a, b)
    ensures Operand(a) && Operand(b) ==> Matmul(a, b) == Some(MatmulDimShapes(a, b))
    ensures a.WildcardShape? && b.WildcardShape? ==>
      Matmul(a, b) == Some(DimShape([DefaultWildcardDim, DefaultWildcardDim], Some(STypeStrictModeException(WildcardShapesWarning))))
    ensures !IsError(a) && !IsError(b) && !ContainsIrreducibleArguments([a, b]) ==>
      (a.DimShape? || a.WildcardShape?) && (b.DimShape? || b.WildcardShape?)
  {
    ErrorForArgumentsIsFirstError([a, b]);
    if !a.ShapeFunctionCall? && !IsSymbolic(a) && !b.ShapeFunctionCall? && !IsSymbolic(b) {
      Reducible(a, b);
    }
  }

  /** A wildcard operand: the dims the other operand fixes are kept, the rest is `Dim`, with a WARNING. */
  lemma WildcardOperands(s: SType, w: SType)
    requires Operand(s) && w.WildcardShape?
    ensures var r := Matmul(s, w);
      && r.Some? && r.value.DimShape? && r.value.err.Some? && Level(r.value.err.value) == WARNING
      && r.value.dims == if Rank(s) == 1 then [One, DefaultWildcardDim] else s.dims[..Rank(s) - 1] + [DefaultWildcardDim]
    ensures var r := Matmul(w, s);
      && r.Some? && r.value.DimShape? && r.value.err.Some? && Level(r.value.err.value) == WARNING
      && r.value.dims == if Rank(s) == 1 then [DefaultWildcardDim, One] else s.dims[..Rank(s) - 2] + [DefaultWildcardDim, s.dims[Rank(s) - 1]]
  {
    ErrorForArgumentsIsFirstError([s, w]);
    ErrorForArgumentsIsFirstError([w, s]);
    Reducible(s, w);
    Reducible(w, s);
  }

  // ---------------------------------------------------------------------------------------------
  // Examples (MatmulTest)

  function Num(v: int): SType
  {
    NumericDim(v, None)
  }

  lemma DimOperands(x: SType, y: SType, z: SType)
    requires IsDim(x) && WellKinded(x) && IsDim(y) && WellKinded(y) && IsDim(z) && WellKinded(z)
    ensures Operand(DimShape([x], None)) && Operand(DimShape([x, y], None)) && Operand(DimShape([x, y, z], None))
  {
    assert WellKinded(DimShape([x], None));
    var two, three := [x, y], [x, y, z];
    assert forall i :: 0 <= i < 2 ==> two[i] == x || two[i] == y;
    assert forall i :: 0 <= i < 3 ==> three[i] == x || three[i] == y || three[i] == z;
  }

  /** The dim-shape product when both operands pad to matrices: no batch dims, so `[m, n]` or the inner-dim conflict. */
  lemma Unbatched(a: SType, b: SType)
    requires Operand(a) && Operand(b) && Rank(a) <= 2 && Rank(b) <= 2
    ensures MatmulDimShapes(a, b) ==
      if ConflictingDims(K1(a), K2(b)) then ErrorShape(STypeFailure(IncompatibleInner(a, b, K1(a), K2(b))))
      else DimShape([M(a), N(b)], InnerWarning(K1(a), K2(b)))
  {
    assert BatchDims(PaddedA(a), PaddedB(b)) == [];
  }

  /**
   * Two matrices `[m, k1] x [k2, n]`: an ERROR when the inner dims conflict, otherwise `[m, n]` carrying
   * the inner-dim warning, if any.
   */
  lemma MatrixTimesMatrix(m: SType, k1: SType, k2: SType, n: SType)
    requires IsDim(m) && WellKinded(m) && IsDim(k1) && WellKinded(k1) && IsDim(k2) && WellKinded(k2) && IsDim(n) && WellKinded(n)
    ensures Operand(DimShape([m, k1], None)) && Operand(DimShape([k2, n], None))
    ensures var a, b := DimShape([m, k1], None), DimShape([k2, n], None);
      Matmul(a, b) == Some(if ConflictingDims(k1, k2) then ErrorShape(STypeFailure(IncompatibleInner(a, b, k1, k2)))
                           else DimShape([m, n], InnerWarning(k1, k2)))
  {
    var a, b := DimShape([m, k1], None), DimShape([k2, n], None);
    DimOperands(m, k1, n);
    DimOperands(k2, n, m);
    assert M(a) == m && K1(a) == k1 && K2(b) == k2 && N(b) == n;
    Unbatched(a, b);
    MatmulReduces(a, b);
  }

  /** A vector on the left is padded with a leading 1, which stays: `[k1] x [k2, n] = [1, n]`. */
  lemma VectorTimesMatrix(k1: SType, k2: SType, n: SType)
    requires IsDim(k1) && WellKinded(k1) && IsDim(k2) && WellKinded(k2) && IsDim(n) && WellKinded(n)
    requires !ConflictingDims(k1, k2)
    ensures Matmul(DimShape([k1], None), DimShape([k2, n], None)) == Some(DimShape([One, n], InnerWarning(k1, k2)))
  {
    var a, b := DimShape([k1], None), DimShape([k2, n], None);
    DimOperands(k1, k2, n);
    DimOperands(k2, n, k1);
    assert M(a) == One && K1(a) == k1 && K2(b) == k2 && N(b) == n;
    Unbatched(a, b);
    MatmulReduces(a, b);
  }

  /** A vector on the right is padded with a trailing 1, which stays: `[m, k1] x [k2] = [m, 1]`. */
  lemma MatrixTimesVector(m: SType, k1: SType, k2: SType)
    requires IsDim(m) && WellKinded(m) && IsDim(k1) && WellKinded(k1) && IsDim(k2) && WellKinded(k2)
    requires !ConflictingDims(k1, k2)
    ensures Matmul(DimShape([m, k1], None), DimShape([k2], None)) == Some(DimShape([m, One], InnerWarning(k1, k2)))
  {
    var a, b := DimShape([m, k1], None), DimShape([k2], None);
    DimOperands(m, k1, k2);
    DimOperands(k2, m, k1);
    assert M(a) == m && K1(a) == k1 && K2(b) == k2 && N(b) == One;
    Unbatched(a, b);
    MatmulReduces(a, b);
  }

  /** One batch dim against a matrix: it is matched with the missing 1. */
  lemma OneBatchDim(a: SType, b: SType)
    requires Operand(a) && Operand(b) && Rank(a) == 3 && Rank(b) == 2
    ensures var p := BatchDimMatch(a.dims[0], One);
      MatmulDimShapes(a, b) ==
        if ConflictingDims(K1(a), K2(b)) then ErrorShape(STypeFailure(IncompatibleInner(a, b, K1(a), K2(b))))
        else if p.ErrorDim? then ErrorShape(p.exc)
        else DimShape([p, M(a), N(b)], InnerWarning(K1(a), K2(b)))
  {
    assert Aligned(PaddedA(a), 3, 0) == a.dims[0] && Aligned(PaddedB(b), 3, 0) == One;
    assert BatchDims(PaddedA(a), PaddedB(b)) == [BatchDimMatch(a.dims[0], One)];
  }

  /** A batch dim against a plain matrix is matched with the missing 1: `[p, m, k1] x [k2, n] = [p', m, n]`. */
  lemma BatchTimesMatrix(p: SType, m: SType, k1: SType, k2: SType, n: SType)
    requires IsDim(p) && WellKinded(p) && IsDim(m) && WellKinded(m) && IsDim(k1) && WellKinded(k1)
    requires IsDim(k2) && WellKinded(k2) && IsDim(n) && WellKinded(n)
    requires !ConflictingDims(k1, k2) && !BatchDimMatch(p, One).ErrorDim?
    ensures Matmul(DimShape([p, m, k1], None), DimShape([k2, n], None)) == Some(DimShape([BatchDimMatch(p, One), m, n], InnerWarning(k1, k2)))
  {
    var a, b := DimShape([p, m, k1], None), DimShape([k2, n], None);
    DimOperands(p, m, k1);
    DimOperands(k2, n, p);
    assert M(a) == m && K1(a) == k1 && K2(b) == k2 && N(b) == n;
    OneBatchDim(a, b);
    MatmulReduces(a, b);
  }

  /** `[m, k] x [k, n] = [m, n]`, with no warning (`matmul([3,2],[2,4]) = [3,4]`); the padding 1 of a vector stays. */
  lemma NumericProducts(p: int, m: int, k: int, n: int)
    ensures var a, b := DimShape([Num(m), Num(k)], None), DimShape([Num(k), Num(n)], None);
      WellTyped(a, b) && Matmul(a, b) == Some(DimShape([Num(m), Num(n)], None))
    ensures var a, b := DimShape([Num(k)], None), DimShape([Num(k), Num(n)], None);
      WellTyped(a, b) && Matmul(a, b) == Some(DimShape([One, Num(n)], None))
    ensures var a, b := DimShape([Num(m), Num(k)], None), DimShape([Num(k)], None);
      WellTyped(a, b) && Matmul(a, b) == Some(DimShape([Num(m), One], None))
    ensures var a, b := DimShape([Num(p), Num(m), Num(k)], None), DimShape([Num(k), Num(n)], None);
      WellTyped(a, b) && Matmul(a, b) == Some(DimShape([Num(p), Num(m), Num(n)], None))
  {
    DimOperands(Num(m), Num(k), Num(n));
    DimOperands(Num(k), Num(n), Num(m));
    DimOperands(Num(p), Num(m), Num(k));
    assert !ConflictingDims(Num(k), Num(k)) && InnerWarning(Num(k), Num(k)) == None;
    MatrixTimesMatrix(Num(m), Num(k), Num(k), Num(n));
    VectorTimesMatrix(Num(k), Num(k), Num(n));
    MatrixTimesVector(Num(m), Num(k), Num(k));
    assert BatchDimMatch(Num(p), One) == Num(p);
    BatchTimesMatrix(Num(p), Num(m), Num(k), Num(k), Num(n));
  }

  /** Two different batch sizes other than 1 make the product an ERROR. */
  lemma BatchMismatch(p: int, q: int, m: int, k: int, n: int)
    requires p != q && p != 1 && q != 1
    ensures var a, b := DimShape([Num(p), Num(m), Num(k)], None), DimShape([Num(q), Num(k), Num(n)], None);
      WellTyped(a, b) && var r := Matmul(a, b); r.Some? && r.value.ErrorShape? && r.value.exc.kind == Failure
  {
    var a, b := DimShape([Num(p), Num(m), Num(k)], None), DimShape([Num(q), Num(k), Num(n)], None);
    DimOperands(Num(p), Num(m), Num(k));
    DimOperands(Num(q), Num(k), Num(n));
    MatmulReduces(a, b);
    MatmulDimShapesFails(a, b);
    BatchNumbers(p, q, None, None);
    assert PaddedA(a) == a.dims && PaddedB(b) == b.dims;
    var batchDims := BatchDims(a.dims, b.dims);
    assert |batchDims| == 1 && batchDims[0] == BatchDimMatch(Num(p), Num(q));
    assert FirstErrorDim(batchDims, 0) == Some(0);
    assert MatmulDimShapes(a, b) == ErrorShape(batchDims[0].exc);
  }

  function DimSymbol(name: string, bound: SType): (d: SType)
    requires IsDim(bound) && WellKinded(bound)
    ensures IsDim(d) && WellKinded(d)
  {
    SymbolicDim(name, bound, false, 0, None)
  }

  /** One symbol as both inner dims: `[3, A] x [A, 4] = [3, 4]`, with no warning. */
  lemma SameSymbol(name: string, v: int, w: int)
    ensures var s := DimSymbol(name, DefaultWildcardDim);
      Matmul(DimShape([Num(v), s], None), DimShape([s, Num(w)], None)) == Some(DimShape([Num(v), Num(w)], None))
  {
    var s := DimSymbol(name, DefaultWildcardDim);
    assert !ConflictingDims(s, s) && InnerWarning(s, s) == None;
    MatrixTimesMatrix(Num(v), s, s, Num(w));
  }

  /** Two symbols whose bounds are unknown or agree: the product is computed, with a WARNING. */
  lemma PossiblyEqualSymbols(x: string, y: string, bound: SType, v: int, w: int)
    requires x != y && IsDim(bound) && WellKinded(bound) && !ConcreteBound(bound).ErrorDim?
    ensures var r := Matmul(DimShape([Num(v), DimSymbol(x, bound)], None), DimShape([DimSymbol(y, bound), Num(w)], None));
      r.Some? && r.value.DimShape? && r.value.dims == [Num(v), Num(w)] && r.value.err.Some? && Level(r.value.err.value) == WARNING
  {
    var k1, k2 := DimSymbol(x, bound), DimSymbol(y, bound);
    assert ConcreteBound(k1) == ConcreteBound(bound) == ConcreteBound(k2);
    assert !ConflictingDims(k1, k2) && !SEq(k1, k2);
    MatrixTimesMatrix(Num(v), k1, k2, Num(w));
  }

  /** Two symbols bounded by different numbers conflict: the product is an ERROR. */
  lemma ConflictingSymbols(x: string, y: string, v: int, w: int)
    requires v != w
    ensures var r := Matmul(DimShape([Num(v), DimSymbol(x, Num(v))], None), DimShape([DimSymbol(y, Num(w)), Num(w)], None));
      r.Some? && r.value.ErrorShape? && r.value.exc.kind == Failure
  {
    var k1, k2 := DimSymbol(x, Num(v)), DimSymbol(y, Num(w));
    assert ConflictingDims(k1, k2);
    MatrixTimesMatrix(Num(v), k1, k2, Num(w));
  }
}
