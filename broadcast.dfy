/**
 * The `broadcast` shape function: numpy-style broadcasting of two shapes. Dims are aligned from the
 * right; a 1 stretches to the other dim, a wildcard is accepted with a warning, and two different
 * concrete dims are a failure. A symbol that cannot be matched leaves the call unreduced.
 */
module Broadcast {
  import opened Wrappers
  import opened STypes
  import opened STypeUtils
  import opened ShapeFunctionUtils

  /** The verdict on one aligned pair of dims. */
  datatype Status = SUCCESS | FAILURE | REDUCIBLE_WITHOUT_GUARANTEE | NOT_REDUCIBLE

  const WildcardShapesWarning: string := "broadcast: Cannot guarantee dimension matching for wildcard shapes"
  const WildcardDimsWarning: string := "broadcast: cannot guarantee matching of wildcard dims"

  /** `broadcastDim`: the verdict on one pair, and the broadcast dim when the verdict admits one. */
  function BroadcastDim(a: SType, b: SType): (r: (Status, Option<SType>))
    ensures r.1.Some? <==> r.0 == SUCCESS || r.0 == REDUCIBLE_WITHOUT_GUARANTEE
  {
    if IsOne(a) then (SUCCESS, Some(b))
    else if IsOne(b) then (SUCCESS, Some(a))
    else if a.WildcardDim? then
      if b.NumericDim? && !IsOne(b) then (REDUCIBLE_WITHOUT_GUARANTEE, Some(b)) else (REDUCIBLE_WITHOUT_GUARANTEE, Some(a))
    else if b.WildcardDim? then
      if a.NumericDim? && !IsOne(a) then (REDUCIBLE_WITHOUT_GUARANTEE, Some(a)) else (REDUCIBLE_WITHOUT_GUARANTEE, Some(b))
    else if SEq(a, b) then (SUCCESS, Some(a))
    else if a.SymbolicDim? || b.SymbolicDim? then (NOT_REDUCIBLE, None)
    else (FAILURE, None)
  }

  function PairStatus(a: SType, b: SType): Status
  {
    BroadcastDim(a, b).0
  }

  // ---------------------------------------------------------------------------------------------
  // The alignment of two dim shapes

  /** Where the comparison starts: the extra leading dims of a longer left operand are not compared. */
  function Start(a: SType, b: SType): nat
    requires a.DimShape? && b.DimShape?
  {
    if |a.dims| >= |b.dims| then |a.dims| - |b.dims| else 0
  }

  /** The left column: the left dims, preceded by the extra leading dims of a longer right operand. */
  function Lefts(a: SType, b: SType): (xs: seq<SType>)
    requires a.DimShape? && b.DimShape?
    ensures |xs| == if |a.dims| >= |b.dims| then |a.dims| else |b.dims|
  {
    if |a.dims| >= |b.dims| then a.dims else b.dims[..|b.dims| - |a.dims|] + a.dims
  }

  /** The right column: the right dims, aligned to the right (the positions before `Start` are never read). */
  function Rights(a: SType, b: SType): (ys: seq<SType>)
    requires a.DimShape? && b.DimShape?
    ensures |ys| == |Lefts(a, b)| == Start(a, b) + |b.dims|
    ensures forall j :: Start(a, b) <= j < |ys| ==> ys[j] == b.dims[j - Start(a, b)]
  {
    if |a.dims| >= |b.dims| then a.dims[..|a.dims| - |b.dims|] + b.dims else b.dims
  }

  /** The first failing pair at or after `j`. */
  function FirstFailure(xs: seq<SType>, ys: seq<SType>, j: nat): (r: Option<nat>)
    requires |xs| == |ys| && j <= |xs|
    ensures r.Some? ==> j <= r.value < |xs| && PairStatus(xs[r.value], ys[r.value]) == FAILURE
                        && forall k :: j <= k < r.value ==> PairStatus(xs[k], ys[k]) != FAILURE
    ensures r.None? ==> forall k :: j <= k < |xs| ==> PairStatus(xs[k], ys[k]) != FAILURE
    decreases |xs| - j
  {
    if j == |xs| then None
    else if PairStatus(xs[j], ys[j]) == FAILURE then Some(j)
    else FirstFailure(xs, ys, j + 1)
  }

  lemma {:induction false} FirstFailureIs(xs: seq<SType>, ys: seq<SType>, j: nat, f: nat)
    requires |xs| == |ys| && j <= f < |xs| && PairStatus(xs[f], ys[f]) == FAILURE
    requires forall k :: j <= k < f ==> PairStatus(xs[k], ys[k]) != FAILURE
    ensures FirstFailure(xs, ys, j) == Some(f)
    decreases f - j
  {
    if j < f {
      FirstFailureIs(xs, ys, j + 1, f);
    }
  }

  predicate SomeStatus(xs: seq<SType>, ys: seq<SType>, from: nat, to: nat, s: Status)
    requires |xs| == |ys| && to <= |xs|
  {
    exists k :: from <= k < to && PairStatus(xs[k], ys[k]) == s
  }

  /** The merged dim at a compared position, or the left dim where the pair gives none. */
  function MergedDim(x: SType, y: SType): SType
  {
    var (_, d) := BroadcastDim(x, y);
    if d.Some? then d.value else x
  }

  function FailureMessage(a: SType, b: SType, sd: SType, td: SType): string
  {
    "Cannot broadcast " + Show(a) + " and " + Show(b) + " with incompatible dims " + Show(sd) + " and " + Show(td)
  }

  /**
   * The specification of `broadcastDimShapes`, position by position: an empty operand gives the other one;
   * otherwise the outcome of comparing the aligned columns.
   */
  function BroadcastDimShapesSpec(a: SType, b: SType): (r: Option<SType>)
    requires a.DimShape? && b.DimShape?
  {
    if |a.dims| == 0 then Some(b)
    else if |b.dims| == 0 then Some(a)
    else AlignedOutcome(a, b, Lefts(a, b), Rights(a, b), Start(a, b))
  }

  /**
   * Comparing the columns from position `s` on: the first failing pair gives an ErrorShape; otherwise any
   * unreducible pair gives no result; otherwise the merged dims after the uncompared leading ones, with a
   * warning exactly when some pair needed a wildcard.
   */
  function AlignedOutcome(a: SType, b: SType, xs: seq<SType>, ys: seq<SType>, s: nat): Option<SType>
    requires |xs| == |ys| && s <= |xs|
  {
    match FirstFailure(xs, ys, s)
    case Some(j) => Some(ErrorShape(STypeFailure(FailureMessage(a, b, xs[j], ys[j]))))
    case None =>
      if SomeStatus(xs, ys, s, |xs|, NOT_REDUCIBLE) then None
      else
        var dims := seq(|xs|, k requires 0 <= k < |xs| => if k < s then xs[k] else MergedDim(xs[k], ys[k]));
        var warning := if SomeStatus(xs, ys, s, |xs|, REDUCIBLE_WITHOUT_GUARANTEE)
                       then Some(STypeStrictModeException(WildcardDimsWarning)) else None;
        Some(DimShape(dims, warning))
  }

  /** The status collected by the loop over the compared positions `[from, to)`. */
  function CollectedStatus(xs: seq<SType>, ys: seq<SType>, from: nat, to: nat): Option<Status>
    requires |xs| == |ys| && to <= |xs|
  {
    if SomeStatus(xs, ys, from, to, NOT_REDUCIBLE) then Some(NOT_REDUCIBLE)
    else if SomeStatus(xs, ys, from, to, REDUCIBLE_WITHOUT_GUARANTEE) then Some(REDUCIBLE_WITHOUT_GUARANTEE)
    else None
  }

  /** How one more pair updates the collected status: NOT_REDUCIBLE overrides, REDUCIBLE_WITHOUT_GUARANTEE fills an empty one. */
  function Collect(collected: Option<Status>, s: Status): Option<Status>
  {
    if s == NOT_REDUCIBLE then Some(NOT_REDUCIBLE)
    else if s == REDUCIBLE_WITHOUT_GUARANTEE && collected.None? then Some(REDUCIBLE_WITHOUT_GUARANTEE)
    else collected
  }

  lemma CollectedStatusStep(xs: seq<SType>, ys: seq<SType>, from: nat, j: nat)
    requires |xs| == |ys| && from <= j < |xs|
    ensures CollectedStatus(xs, ys, from, j + 1) == Collect(CollectedStatus(xs, ys, from, j), PairStatus(xs[j], ys[j]))
  {
    var s := PairStatus(xs[j], ys[j]);
    assert SomeStatus(xs, ys, from, j + 1, NOT_REDUCIBLE) <==> SomeStatus(xs, ys, from, j, NOT_REDUCIBLE) || s == NOT_REDUCIBLE;
    assert SomeStatus(xs, ys, from, j + 1, REDUCIBLE_WITHOUT_GUARANTEE) <==>
      SomeStatus(xs, ys, from, j, REDUCIBLE_WITHOUT_GUARANTEE) || s == REDUCIBLE_WITHOUT_GUARANTEE;
  }

  /** The outcome once every pair has been compared without failure, by the collected status. */
  lemma OutcomeAfterLoop(a: SType, b: SType, xs: seq<SType>, ys: seq<SType>, s: nat, dims: seq<SType>)
    requires |xs| == |ys| == |dims| && s <= |xs|
    requires forall k :: s <= k < |xs| ==> PairStatus(xs[k], ys[k]) != FAILURE
    requires forall k :: 0 <= k < s ==> dims[k] == xs[k]
    requires forall k :: s <= k < |xs| ==> dims[k] == MergedDim(xs[k], ys[k])
    ensures var c := CollectedStatus(xs, ys, s, |xs|);
      AlignedOutcome(a, b, xs, ys, s) ==
        if c == Some(NOT_REDUCIBLE) then None
        else Some(DimShape(dims, if c == Some(REDUCIBLE_WITHOUT_GUARANTEE) then Some(STypeStrictModeException(WildcardDimsWarning)) else None))
  {
    assert FirstFailure(xs, ys, s).None?;
    assert dims == seq(|xs|, k requires 0 <= k < |xs| => if k < s then xs[k] else MergedDim(xs[k], ys[k]));
  }

  /** `broadcastDimShapes`: the empty cases, then the alignment of the shorter operand to the right. */
  method BroadcastDimShapes(a: SType, b: SType) returns (r: Option<SType>)
    requires a.DimShape? && b.DimShape?
    ensures r == BroadcastDimShapesSpec(a, b)
  {
    if |a.dims| == 0 {
      return Some(b);
    }
    if |b.dims| == 0 {
      return Some(a);
    }
    var rdiff := |a.dims| - |b.dims|;
    var broadcastedDims := a.dims;
    if rdiff < 0 {
      broadcastedDims := b.dims[..-rdiff] + broadcastedDims;
      rdiff := 0;
    }
    assert broadcastedDims == Lefts(a, b) && rdiff == Start(a, b);
    r := BroadcastAligned(a, b, rdiff, broadcastedDims, Rights(a, b));
    SpecIsAligned(a, b);
  }

  lemma SpecIsAligned(a: SType, b: SType)
    requires a.DimShape? && b.DimShape? && |a.dims| > 0 && |b.dims| > 0
    ensures BroadcastDimShapesSpec(a, b) == AlignedOutcome(a, b, Lefts(a, b), Rights(a, b), Start(a, b))
  {
  }

  /** The loop of `broadcastDimShapes`: each compared position is merged in place, the first failure returns at once. */
  method BroadcastAligned(a: SType, b: SType, rdiff: nat, dims: seq<SType>, ghost ys: seq<SType>) returns (r: Option<SType>)
    requires b.DimShape? && |dims| == |ys| && rdiff <= |dims|
    requires rdiff + |b.dims| == |ys|
    requires forall j :: rdiff <= j < |ys| ==> ys[j] == b.dims[j - rdiff]
    ensures r == AlignedOutcome(a, b, dims, ys, rdiff)
  {
    var broadcastedDims := dims;
    var collectedStatus: Option<Status> := None;
    for j := rdiff to |broadcastedDims|
      invariant |broadcastedDims| == |dims|
      invariant forall k :: 0 <= k < |dims| && (k < rdiff || j <= k) ==> broadcastedDims[k] == dims[k]
      invariant forall k :: rdiff <= k < j ==> broadcastedDims[k] == MergedDim(dims[k], ys[k])
      invariant forall k :: rdiff <= k < j ==> PairStatus(dims[k], ys[k]) != FAILURE
      invariant collectedStatus == CollectedStatus(dims, ys, rdiff, j)
    {
      var sd := broadcastedDims[j];
      var td := b.dims[j - rdiff];
      var (status, broadcastedDim) := BroadcastDim(sd, td);
      CollectedStatusStep(dims, ys, rdiff, j);
      match status {
        case FAILURE =>
          FirstFailureIs(dims, ys, rdiff, j);
          return Some(ErrorShape(STypeFailure(FailureMessage(a, b, sd, td))));
        case NOT_REDUCIBLE =>
          collectedStatus := Some(NOT_REDUCIBLE);
        case REDUCIBLE_WITHOUT_GUARANTEE =>
          if collectedStatus.None? {
            collectedStatus := Some(REDUCIBLE_WITHOUT_GUARANTEE);
          }
          broadcastedDims := broadcastedDims[j := broadcastedDim.value];
        case SUCCESS =>
          broadcastedDims := broadcastedDims[j := broadcastedDim.value];
      }
    }
    OutcomeAfterLoop(a, b, dims, ys, rdiff, broadcastedDims);
    if collectedStatus == Some(NOT_REDUCIBLE) {
      return None;
    }
    if collectedStatus == Some(REDUCIBLE_WITHOUT_GUARANTEE) {
      return Some(DimShape(broadcastedDims, Some(STypeStrictModeException(WildcardDimsWarning))));
    }
    return Some(DimShape(broadcastedDims, None));
  }

  /** `broadcast`. */
  function Broadcast(a: SType, b: SType): (r: Option<SType>)
    requires IsShape(a) && IsShape(b)
  {
    match ErrorForArguments([a, b])
    case Some(e) => Some(ErrorShape(e))
    case None =>
      if a.WildcardShape? || b.WildcardShape? then Some(WildcardShape(Some(STypeStrictModeException(WildcardShapesWarning))))
      else if SEq(a, b) then Some(a)
      else if ContainsIrreducibleArguments([a, b]) then None
      else if a.DimShape? && b.DimShape? then BroadcastDimShapesSpec(a, b)
      else Some(ErrorShape(UnsupportedSTypesException("broadcast", [a, b])))
  }

  // ---------------------------------------------------------------------------------------------
  // Properties of one pair

  /** The verdict does not depend on the order of the pair. */
  lemma PairStatusSymmetric(a: SType, b: SType)
    ensures PairStatus(a, b) == PairStatus(b, a)
  {
    if SEq(a, b) {
      SEqSymmetric(a, b);
    }
    if SEq(b, a) {
      SEqSymmetric(b, a);
    }
  }

  /** A dim broadcast against itself is kept, with a warning only for a wildcard; it never fails. */
  lemma SelfPair(d: SType)
    ensures MergedDim(d, d) == d
    ensures PairStatus(d, d) == if d.WildcardDim? && !IsOne(d) then REDUCIBLE_WITHOUT_GUARANTEE else SUCCESS
  {
    SEqReflexive(d);
  }

  /** The numpy rule on numbers: equal values or a 1 broadcast (to the other value); anything else fails. */
  lemma NumericPairs(v: int, w: int, e1: Option<STypeException>, e2: Option<STypeException>)
    ensures var x, y := NumericDim(v, e1), NumericDim(w, e2);
      (PairStatus(x, y) == SUCCESS <==> v == w || v == 1 || w == 1)
      && (PairStatus(x, y) != SUCCESS ==> PairStatus(x, y) == FAILURE)
      && (v == 1 ==> MergedDim(x, y) == y)
      && (v != 1 && (w == 1 || v == w) ==> MergedDim(x, y) == x)
  {
  }

  /** A wildcard against any dim other than 1 is accepted without guarantee, keeping the other side when it is a number. */
  lemma WildcardPairs(w: SType, d: SType)
    requires w.WildcardDim? && !IsOne(d)
    ensures PairStatus(w, d) == REDUCIBLE_WITHOUT_GUARANTEE && PairStatus(d, w) == REDUCIBLE_WITHOUT_GUARANTEE
    ensures d.NumericDim? ==> MergedDim(w, d) == d && MergedDim(d, w) == d
  {
  }

  /** Two different symbols (or a symbol against a number other than 1) cannot be reduced. */
  lemma SymbolPairs(s: SType, d: SType)
    requires s.SymbolicDim? && !IsOne(d) && !d.WildcardDim? && !SEq(s, d)
    ensures PairStatus(s, d) == NOT_REDUCIBLE
  {
  }

  // ---------------------------------------------------------------------------------------------
  // Properties of two dim shapes

  /** The broadcast shape has the larger rank of the two. */
  lemma BroadcastRank(a: SType, b: SType)
    requires a.DimShape? && b.DimShape?
    requires BroadcastDimShapesSpec(a, b).Some? && BroadcastDimShapesSpec(a, b).value.DimShape?
    ensures |BroadcastDimShapesSpec(a, b).value.dims| == if |a.dims| >= |b.dims| then |a.dims| else |b.dims|
  {
    if |a.dims| > 0 && |b.dims| > 0 {
      assert FirstFailure(Lefts(a, b), Rights(a, b), Start(a, b)).None?;
    }
  }

  /**
   * The outcome of two non-empty dim shapes, by the verdicts on the compared pairs: an ErrorShape exactly
   * when some pair fails; otherwise no result exactly when some pair cannot be reduced; otherwise a dim
   * shape whose compared dims are the merged pairs, whose other leading dims are those of the longer
   * operand, and which carries a warning exactly when some pair needed a wildcard.
   */
  lemma BroadcastOutcomes(a: SType, b: SType)
    requires a.DimShape? && b.DimShape? && |a.dims| > 0 && |b.dims| > 0
    ensures var xs, ys, s, r := Lefts(a, b), Rights(a, b), Start(a, b), BroadcastDimShapesSpec(a, b);
      && ((r.Some? && r.value.ErrorShape?) <==> SomeStatus(xs, ys, s, |xs|, FAILURE))
      && (r.None? <==> !SomeStatus(xs, ys, s, |xs|, FAILURE) && SomeStatus(xs, ys, s, |xs|, NOT_REDUCIBLE))
      && (r.Some? && !r.value.ErrorShape? ==>
            && r.value.DimShape? && |r.value.dims| == |xs|
            && (forall k :: s <= k < |xs| ==> r.value.dims[k] == MergedDim(xs[k], ys[k]))
            && (forall k :: 0 <= k < |xs| - |b.dims| && |a.dims| >= |b.dims| ==> r.value.dims[k] == a.dims[k])
            && (r.value.err.Some? <==> SomeStatus(xs, ys, s, |xs|, REDUCIBLE_WITHOUT_GUARANTEE)))
  {
    var xs, ys, s := Lefts(a, b), Rights(a, b), Start(a, b);
    if SomeStatus(xs, ys, s, |xs|, FAILURE) {
      var k :| s <= k < |xs| && PairStatus(xs[k], ys[k]) == FAILURE;
      assert FirstFailure(xs, ys, s).Some?;
    }
  }

  /**
   * The leading dims of a longer right operand are compared with themselves, so they are kept too,
   * and in every case the leading dims of the result are those of the longer operand.
   */
  lemma BroadcastKeepsLeadingDims(a: SType, b: SType)
    requires a.DimShape? && b.DimShape? && |a.dims| > 0 && |a.dims| < |b.dims|
    requires BroadcastDimShapesSpec(a, b).Some? && BroadcastDimShapesSpec(a, b).value.DimShape?
    ensures forall k :: 0 <= k < |b.dims| - |a.dims| ==> BroadcastDimShapesSpec(a, b).value.dims[k] == b.dims[k]
  {
    BroadcastOutcomes(a, b);
    forall k | 0 <= k < |b.dims| - |a.dims|
      ensures BroadcastDimShapesSpec(a, b).value.dims[k] == b.dims[k]
    {
      assert Lefts(a, b)[k] == b.dims[k] && Rights(a, b)[k] == b.dims[k];
      SelfPair(b.dims[k]);
    }
  }

  /** Swapped columns hold the same failing and unreducible pairs, when the extra positions pair a dim with itself. */
  lemma SwapColumns(xs: seq<SType>, ys: seq<SType>, s: nat, st: Status)
    requires |xs| == |ys| && s <= |xs| && forall k :: 0 <= k < s ==> xs[k] == ys[k]
    requires st == FAILURE || st == NOT_REDUCIBLE
    ensures SomeStatus(xs, ys, s, |xs|, st) <==> SomeStatus(ys, xs, 0, |xs|, st)
  {
    if SomeStatus(xs, ys, s, |xs|, st) {
      var k :| s <= k < |xs| && PairStatus(xs[k], ys[k]) == st;
      PairStatusSymmetric(xs[k], ys[k]);
    }
    if SomeStatus(ys, xs, 0, |xs|, st) {
      var k :| 0 <= k < |xs| && PairStatus(ys[k], xs[k]) == st;
      PairStatusSymmetric(ys[k], xs[k]);
      if k < s {
        SelfPair(xs[k]);
      }
    }
  }

  /** Swapping the operands swaps the two columns; the comparison then starts at 0. */
  lemma SwappedColumns(a: SType, b: SType)
    requires a.DimShape? && b.DimShape? && |a.dims| >= |b.dims|
    ensures Lefts(b, a) == Rights(a, b) && Rights(b, a) == Lefts(a, b) && Start(b, a) == 0
    ensures forall k :: 0 <= k < Start(a, b) ==> Lefts(a, b)[k] == Rights(a, b)[k]
  {
    if |a.dims| == |b.dims| {
      assert a.dims[..0] + b.dims == b.dims && b.dims[..0] + a.dims == a.dims;
    }
  }

  lemma SwappedStatuses(a: SType, b: SType, st: Status)
    requires a.DimShape? && b.DimShape? && |a.dims| >= |b.dims| > 0
    requires st == FAILURE || st == NOT_REDUCIBLE
    ensures SomeStatus(Lefts(a, b), Rights(a, b), Start(a, b), |Lefts(a, b)|, st) <==>
            SomeStatus(Lefts(b, a), Rights(b, a), Start(b, a), |Lefts(b, a)|, st)
  {
    SwappedColumns(a, b);
    SwapColumns(Lefts(a, b), Rights(a, b), Start(a, b), st);
  }

  /** Whether broadcasting fails, and whether it is reducible, does not depend on the order of the operands. */
  lemma BroadcastOutcomeSymmetric(a: SType, b: SType)
    requires a.DimShape? && b.DimShape?
    ensures BroadcastDimShapesSpec(a, b).None? <==> BroadcastDimShapesSpec(b, a).None?
    ensures (BroadcastDimShapesSpec(a, b).Some? && BroadcastDimShapesSpec(a, b).value.ErrorShape?) <==>
            (BroadcastDimShapesSpec(b, a).Some? && BroadcastDimShapesSpec(b, a).value.ErrorShape?)
  {
    if |a.dims| > 0 && |b.dims| > 0 {
      BroadcastOutcomes(a, b);
      BroadcastOutcomes(b, a);
      if |a.dims| >= |b.dims| {
        SwappedStatuses(a, b, FAILURE);
        SwappedStatuses(a, b, NOT_REDUCIBLE);
      } else {
        SwappedStatuses(b, a, FAILURE);
        SwappedStatuses(b, a, NOT_REDUCIBLE);
      }
    }
  }

  /**
   * The wildcard warning does depend on the order: a leading wildcard of the longer operand is compared
   * with itself, and so warned about, only when that operand is on the right.
   */
  lemma WarningDependsOnOrder(d: SType, e: Option<STypeException>)
    requires d.NumericDim? && !IsOne(d)
    ensures var a, b := DimShape([d], None), DimShape([WildcardDim(e), d], None);
      && Broadcast(a, b) == Some(DimShape([WildcardDim(e), d], Some(STypeStrictModeException(WildcardDimsWarning))))
      && Broadcast(b, a) == Some(DimShape([WildcardDim(e), d], None))
  {
    var a, b := DimShape([d], None), DimShape([WildcardDim(e), d], None);
    PlainDimShapes(a, b);
    PlainDimShapes(b, a);
    ShorterOnTheLeft(d, e);
    LongerOnTheLeft(d, e);
  }

  /** Two dim shapes without error and of different ranks: `broadcast` compares their dims. */
  lemma PlainDimShapes(a: SType, b: SType)
    requires a.DimShape? && b.DimShape? && a.err.None? && b.err.None? && |a.dims| != |b.dims|
    ensures Broadcast(a, b) == BroadcastDimShapesSpec(a, b)
  {
    assert !SEq(a, b);
    assert !ContainsIrreducibleArguments([a, b]);
    ErrorForArgumentsIsFirstError([a, b]);
  }

  lemma ShorterOnTheLeft(d: SType, e: Option<STypeException>)
    requires d.NumericDim? && !IsOne(d)
    ensures BroadcastDimShapesSpec(DimShape([d], None), DimShape([WildcardDim(e), d], None)) ==
      Some(DimShape([WildcardDim(e), d], Some(STypeStrictModeException(WildcardDimsWarning))))
  {
    var a, b := DimShape([d], None), DimShape([WildcardDim(e), d], None);
    var xs, ys := Lefts(a, b), Rights(a, b);
    assert xs == [WildcardDim(e), d] && ys == [WildcardDim(e), d] && Start(a, b) == 0;
    SelfPair(WildcardDim(e));
    SelfPair(d);
    assert PairStatus(xs[0], ys[0]) == REDUCIBLE_WITHOUT_GUARANTEE;
    assert !SomeStatus(xs, ys, 0, 2, NOT_REDUCIBLE) && SomeStatus(xs, ys, 0, 2, REDUCIBLE_WITHOUT_GUARANTEE);
    OutcomeAfterLoop(a, b, xs, ys, 0, xs);
    SpecIsAligned(a, b);
  }

  lemma LongerOnTheLeft(d: SType, e: Option<STypeException>)
    requires d.NumericDim? && !IsOne(d)
    ensures BroadcastDimShapesSpec(DimShape([WildcardDim(e), d], None), DimShape([d], None)) ==
      Some(DimShape([WildcardDim(e), d], None))
  {
    var a, b := DimShape([WildcardDim(e), d], None), DimShape([d], None);
    var xs, ys := Lefts(a, b), Rights(a, b);
    assert xs == [WildcardDim(e), d] && ys == [WildcardDim(e), d] && Start(a, b) == 1;
    SelfPair(d);
    assert !SomeStatus(xs, ys, 1, 2, NOT_REDUCIBLE) && !SomeStatus(xs, ys, 1, 2, REDUCIBLE_WITHOUT_GUARANTEE);
    OutcomeAfterLoop(a, b, xs, ys, 1, xs);
    SpecIsAligned(a, b);
  }

  /**
   * `broadcast` by the kinds of its operands: an error operand gives an ErrorShape with the first error's
   * failure, a wildcard shape gives a warned wildcard, equal operands give the left one, a call or a symbol
   * gives no result, and the only operands left are two dim shapes (the unsupported-types branch is dead).
   */
  lemma BroadcastCases(a: SType, b: SType)
    requires IsShape(a) && IsShape(b)
    ensures IsError(a) ==> Broadcast(a, b) == Some(ErrorShape(ArgumentFailure(a)))
    ensures !IsError(a) && IsError(b) ==> Broadcast(a, b) == Some(ErrorShape(ArgumentFailure(b)))
    ensures !IsError(a) && !IsError(b) && (a.WildcardShape? || b.WildcardShape?) ==>
      Broadcast(a, b) == Some(WildcardShape(Some(STypeStrictModeException(WildcardShapesWarning))))
    ensures !IsError(a) && !IsError(b) && !a.WildcardShape? && !b.WildcardShape? && SEq(a, b) ==> Broadcast(a, b) == Some(a)
    ensures !IsError(a) && !IsError(b) && !a.WildcardShape? && !b.WildcardShape? && !SEq(a, b) ==>
      ContainsIrreducibleArguments([a, b]) ==> Broadcast(a, b).None?
    ensures !IsError(a) && !IsError(b) && !a.WildcardShape? && !b.WildcardShape? && !SEq(a, b) && !ContainsIrreducibleArguments([a, b]) ==>
      a.DimShape? && b.DimShape? && Broadcast(a, b) == BroadcastDimShapesSpec(a, b)
  {
    ErrorForArgumentsIsFirstError([a, b]);
    if !IsError(a) && !IsError(b) && !ContainsIrreducibleArguments([a, b]) {
      assert !(a.ShapeFunctionCall? || IsSymbolic(a)) && !(b.ShapeFunctionCall? || IsSymbolic(b));
    }
  }

  /** A definite failure is reported even after a pair that cannot be reduced (BroadcastTest). */
  lemma FailureAfterUnreducible(s1: SType, s2: SType, x: SType, y: SType)
    requires s1.SymbolicDim? && s2.SymbolicDim? && !SEq(s1, s2)
    requires x.NumericDim? && y.NumericDim? && x.value != y.value && !IsOne(x) && !IsOne(y)
    ensures var a, b := DimShape([s1, x], None), DimShape([s2, y], None);
      BroadcastDimShapesSpec(a, b) == Some(ErrorShape(STypeFailure(FailureMessage(a, b, x, y))))
  {
    var a, b := DimShape([s1, x], None), DimShape([s2, y], None);
    var xs, ys := Lefts(a, b), Rights(a, b);
    assert xs == [s1, x] && ys == [s2, y] && Start(a, b) == 0;
    assert PairStatus(s1, s2) == NOT_REDUCIBLE && PairStatus(x, y) == FAILURE;
    FirstFailureIs(xs, ys, 0, 1);
    SpecIsAligned(a, b);
  }
}
