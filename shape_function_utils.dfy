/**
 * Helpers shared by the built-in shape functions: rank checks, the first erroneous argument, the
 * irreducibility test, the concrete bound of a dim, and `dimIntersect`, which merges two dims that must
 * be equal (keeping the more specific one, with a warning when equality is not guaranteed).
 */
module ShapeFunctionUtils {
  import opened Wrappers
  import opened Strings
  import opened STypes
  import opened STypeUtils
  import opened Generics
  import opened AnalysisSubtyper

  // ---------------------------------------------------------------------------------------------
  // Rank checks

  /** `checkRankIfExists`: an ErrorShape exactly when `s` is a dim shape of another rank; other shapes pass. */
  function CheckRankIfExists(s: SType, expectedRank: int, paramName: string): (r: Option<SType>)
    ensures r.Some? <==> s.DimShape? && Rank(s) != expectedRank
    ensures r.Some? ==> r.value.ErrorShape? && r.value.exc.kind == Failure && Level(r.value.exc) == ERROR
    ensures r.Some? ==> r.value.exc.message == paramName + " must have rank " + IntToString(expectedRank) + ". Got " + IntToString(Rank(s))
  {
    if s.DimShape? && |s.dims| != expectedRank then
      Some(ErrorShape(STypeFailure(paramName + " must have rank " + IntToString(expectedRank) + ". Got " + IntToString(|s.dims|))))
    else None
  }

  /** `checkMinimumRankIfExists`: an ErrorShape exactly when `s` is a dim shape of smaller rank. */
  function CheckMinimumRankIfExists(s: SType, expectedRank: int, paramName: string): (r: Option<SType>)
    ensures r.Some? <==> s.DimShape? && Rank(s) < expectedRank
    ensures r.Some? ==> r.value.ErrorShape? && r.value.exc.kind == Failure && Level(r.value.exc) == ERROR
    ensures r.Some? ==> r.value.exc.message == paramName + " must have rank at least " + IntToString(expectedRank) + ". Got " + IntToString(Rank(s))
  {
    if s.DimShape? && |s.dims| < expectedRank then
      Some(ErrorShape(STypeFailure(paramName + " must have rank at least " + IntToString(expectedRank) + ". Got " + IntToString(|s.dims|))))
    else None
  }

  // ---------------------------------------------------------------------------------------------
  // Erroneous and irreducible arguments

  /** What `getErrorForArguments` reports for an error argument: an STypeFailure whose message is the error's `toString`. */
  function ArgumentFailure(t: SType): (e: STypeException)
    requires IsError(t)
    ensures e.kind == Failure && Level(e) == ERROR
  {
    STypeFailure(ExceptionToString(t.exc))
  }

  /** The specification of `getErrorForArguments`: the failure for the first error argument, if any. */
  function ErrorForArguments(args: seq<SType>): Option<STypeException>
    decreases |args|
  {
    if args == [] then None
    else if IsError(args[0]) then Some(ArgumentFailure(args[0]))
    else ErrorForArguments(args[1..])
  }

  /** No failure exactly when no argument is an error; otherwise the failure names the first error argument. */
  lemma {:induction false} ErrorForArgumentsIsFirstError(args: seq<SType>)
    ensures ErrorForArguments(args).None? <==> forall i :: 0 <= i < |args| ==> !IsError(args[i])
    ensures ErrorForArguments(args).Some? ==>
      exists i :: 0 <= i < |args| && IsError(args[i]) && (forall j :: 0 <= j < i ==> !IsError(args[j]))
                  && ErrorForArguments(args).value == ArgumentFailure(args[i])
    decreases |args|
  {
    if args != [] && !IsError(args[0]) {
      ErrorForArgumentsIsFirstError(args[1..]);
      assert forall i :: 1 <= i < |args| ==> args[i] == args[1..][i - 1];
      if ErrorForArguments(args).Some? {
        var i :| 0 <= i < |args[1..]| && IsError(args[1..][i]) && (forall j :: 0 <= j < i ==> !IsError(args[1..][j]))
                 && ErrorForArguments(args[1..]).value == ArgumentFailure(args[1..][i]);
        assert IsError(args[i + 1]) && forall j :: 0 <= j < i + 1 ==> !IsError(args[j]);
      }
    }
  }

  /**
   * `getErrorForArguments`: the indexed scan with early return. (Its fallback message, built from the
   * function name, is unreachable: an error value always carries its error.)
   */
  method GetErrorForArguments(args: seq<SType>) returns (r: Option<STypeException>)
    ensures r == ErrorForArguments(args)
  {
    for i := 0 to |args|
      invariant ErrorForArguments(args) == ErrorForArguments(args[i..])
    {
      assert args[i..][0] == args[i] && args[i..][1..] == args[i + 1..];
      if IsError(args[i]) {
        return Some(ArgumentFailure(args[i]));
      }
    }
    return None;
  }

  /** The index of the first ErrorDim at or after `from`. */
  function FirstErrorDim(ds: seq<SType>, from: nat): (r: Option<nat>)
    requires from <= |ds|
    ensures r.Some? ==> from <= r.value < |ds| && ds[r.value].ErrorDim? && forall k :: from <= k < r.value ==> !ds[k].ErrorDim?
    ensures r.None? ==> forall k :: from <= k < |ds| ==> !ds[k].ErrorDim?
    decreases |ds| - from
  {
    if from == |ds| then None
    else if ds[from].ErrorDim? then Some(from)
    else FirstErrorDim(ds, from + 1)
  }

  /** `NumericDim(1)`, the dim that broadcasting and batching stretch. */
  const One: SType := NumericDim(1, None)

  /** `d == NumericDim(1)`: numeric dims are equal by value alone. */
  predicate IsOne(d: SType)
    ensures IsOne(d) <==> SEq(d, One)
  {
    d.NumericDim? && d.value == 1
  }

  /** `containsIrreducibleArguments`: some argument is a shape function call or a symbol. */
  predicate ContainsIrreducibleArguments(args: seq<SType>)
  {
    exists i :: 0 <= i < |args| && (args[i].ShapeFunctionCall? || IsSymbolic(args[i]))
  }

  // ---------------------------------------------------------------------------------------------
  // Concrete bounds and conflicting dims

  /** The first non-symbolic dim on the bound chain of `d`: the end of the chain `d`, `d.bound`, ... */
  function ConcreteBound(d: SType): (r: SType)
    ensures !r.SymbolicDim?
    ensures r == BoundChain(d, false)[|BoundChain(d, false)| - 1]
    ensures !d.SymbolicDim? ==> r == d
    decreases d
  {
    if d.SymbolicDim? then ConcreteBound(d.bound) else d
  }

  /** The `when` of `conflictingBounds` on two concrete bounds (at least one being a wildcard gives no conflict). */
  predicate BoundsConflict(x: SType, y: SType)
  {
    (x.NumericDim? && y.NumericDim? && x.value != y.value) || (x.ErrorDim? && !y.ErrorDim?) || (y.ErrorDim? && !x.ErrorDim?)
  }

  /** `conflictingDims`: the concrete bounds are distinct numbers, or exactly one of them is an error. */
  predicate ConflictingDims(a: SType, b: SType)
  {
    BoundsConflict(ConcreteBound(a), ConcreteBound(b))
  }

  /** `conflictingBounds`: the two `while` loops down the bound chains, then the conflict test. */
  method ConflictingBounds(a: SType, b: SType) returns (conflicting: bool, concreteBoundA: SType, concreteBoundB: SType)
    ensures concreteBoundA == ConcreteBound(a) && concreteBoundB == ConcreteBound(b)
    ensures !concreteBoundA.SymbolicDim? && !concreteBoundB.SymbolicDim?
    ensures conflicting <==> ConflictingDims(a, b)
  {
    concreteBoundA := a;
    concreteBoundB := b;
    while concreteBoundA.SymbolicDim?
      invariant ConcreteBound(concreteBoundA) == ConcreteBound(a)
      decreases concreteBoundA
    {
      concreteBoundA := concreteBoundA.bound;
    }
    while concreteBoundB.SymbolicDim?
      invariant ConcreteBound(concreteBoundB) == ConcreteBound(b)
      decreases concreteBoundB
    {
      concreteBoundB := concreteBoundB.bound;
    }
    conflicting := BoundsConflict(concreteBoundA, concreteBoundB);
  }

  /** Conflict is symmetric, and two dims with the same concrete bound never conflict. */
  lemma ConflictingDimsProperties(a: SType, b: SType)
    ensures ConflictingDims(a, b) == ConflictingDims(b, a)
    ensures ConcreteBound(a) == ConcreteBound(b) ==> !ConflictingDims(a, b)
  {
  }

  // ---------------------------------------------------------------------------------------------
  // dimIntersect

  /** The outcome of a computation that may recurse forever (the JVM ends it with a StackOverflowError). */
  datatype Outcome = Returns(dim: SType) | Diverges

  /** The warning attached when `kept` is returned for `other`. */
  function MayNotEqual(errorPrefix: string, other: SType, kept: SType): (e: STypeException)
    ensures Level(e) == WARNING
  {
    STypeStrictModeException(errorPrefix + Show(other) + " may not be exactly equal to " + Show(kept))
  }

  function CannotBeEqual(errorPrefix: string, a: SType, b: SType): (e: STypeException)
    ensures Level(e) == ERROR && e.kind == Failure
  {
    STypeFailure(errorPrefix + "Dims " + Show(a) + " and " + Show(b) + " cannot be equal")
  }

  /** A symbolic argument gives the recursion one step to make; concrete arguments give none. */
  function SymbolicPairWeight(a: SType, b: SType): nat
  {
    if a.SymbolicDim? || b.SymbolicDim? then 1 else 0
  }

  /**
   * `dimIntersect` as written. When neither side is a symbol, the last branch calls `dimIntersect` again
   * on the very same arguments, so it never returns: that outcome is `Diverges`.
   */
  function DimIntersectAsWritten(a: SType, b: SType, errorPrefix: string): Outcome
    decreases SymbolicPairWeight(a, b)
  {
    if SEq(a, b) then Returns(if Error(a).Some? then a else b)
    else if IsSubtypeOf(a, b) then Returns(WithException(a, MayNotEqual(errorPrefix, b, a)))
    else if IsSubtypeOf(b, a) then Returns(WithException(b, MayNotEqual(errorPrefix, a, b)))
    else
      var boundA, boundB := ConcreteBound(a), ConcreteBound(b);
      if BoundsConflict(boundA, boundB) then Returns(ErrorDim(CannotBeEqual(errorPrefix, a, b)))
      else if !a.SymbolicDim? && !b.SymbolicDim? then Diverges
      else DimIntersectAsWritten(boundA, boundB, errorPrefix)
  }

  /**
   * `dimIntersect` as evidently intended: the source's result wherever it returns; where it would call
   * itself on the same two concrete dims (two different errors, or two wildcards with different errors),
   * the left concrete bound is kept, an error as it stands and a wildcard with the "may not be exactly
   * equal" warning.
   */
  function DimIntersect(a: SType, b: SType, errorPrefix: string): (r: SType)
    ensures IsDim(a) && IsDim(b) && WellKinded(a) && WellKinded(b) ==> IsDim(r)
  {
    DimIntersectReturnsDim(a, b, errorPrefix);
    match DimIntersectAsWritten(a, b, errorPrefix)
    case Returns(d) => d
    case Diverges =>
      var boundA, boundB := ConcreteBound(a), ConcreteBound(b);
      ConcreteBoundIsDim(a);
      if boundA.ErrorDim? then boundA else WithException(boundA, MayNotEqual(errorPrefix, boundB, boundA))
  }

  /** Whatever the source's `dimIntersect` returns for two well-kinded dims is a dim. */
  lemma {:induction false} DimIntersectReturnsDim(a: SType, b: SType, errorPrefix: string)
    ensures IsDim(a) && IsDim(b) && WellKinded(a) && WellKinded(b) && DimIntersectAsWritten(a, b, errorPrefix).Returns? ==>
      IsDim(DimIntersectAsWritten(a, b, errorPrefix).dim)
    decreases SymbolicPairWeight(a, b)
  {
    if IsDim(a) && IsDim(b) && WellKinded(a) && WellKinded(b) && !SEq(a, b) && !IsSubtypeOf(a, b) && !IsSubtypeOf(b, a)
       && !BoundsConflict(ConcreteBound(a), ConcreteBound(b)) && (a.SymbolicDim? || b.SymbolicDim?) {
      ConcreteBoundIsDim(a);
      ConcreteBoundIsDim(b);
      DimIntersectReturnsDim(ConcreteBound(a), ConcreteBound(b), errorPrefix);
    }
  }

  /** The concrete bound of a well-kinded dim is a well-kinded dim. */
  lemma {:induction false} ConcreteBoundIsDim(d: SType)
    ensures IsDim(d) && WellKinded(d) ==> IsDim(ConcreteBound(d)) && WellKinded(ConcreteBound(d))
    decreases d
  {
    if d.SymbolicDim? {
      ConcreteBoundIsDim(d.bound);
    }
  }

  /** Two concrete dims on which the last branch would repeat itself: both errors or both wildcards, differing in their error. */
  predicate Stuck(x: SType, y: SType)
  {
    (x.ErrorDim? && y.ErrorDim? && x.exc != y.exc) || (x.WildcardDim? && y.WildcardDim? && x.err != y.err)
  }

  /** For concrete well-kinded dims, passing every test of `dimIntersect` without a result is exactly `Stuck`. */
  lemma ConcreteDimsStuck(x: SType, y: SType)
    requires IsDim(x) && IsDim(y) && !x.SymbolicDim? && !y.SymbolicDim?
    ensures (!SEq(x, y) && !IsSubtypeOf(x, y) && !IsSubtypeOf(y, x) && !BoundsConflict(x, y)) <==> Stuck(x, y)
  {
    if x.NumericDim? && y.WildcardDim? {
      assert Subtype(x, y) == STRICTSUBTYPE;
    }
    if y.NumericDim? && x.WildcardDim? {
      assert Subtype(y, x) == STRICTSUBTYPE;
    }
    if Stuck(x, y) {
      assert Subtype(x, y) == NOTSUBTYPE && Subtype(y, x) == NOTSUBTYPE;
    }
  }

  /**
   * The source's `dimIntersect` recurses forever exactly when the two dims are unequal, neither subtypes the
   * other, and their concrete bounds are stuck.
   */
  lemma DimIntersectDivergesIff(a: SType, b: SType, errorPrefix: string)
    requires IsDim(a) && IsDim(b) && WellKinded(a) && WellKinded(b)
    ensures DimIntersectAsWritten(a, b, errorPrefix).Diverges? <==>
      !SEq(a, b) && !IsSubtypeOf(a, b) && !IsSubtypeOf(b, a) && Stuck(ConcreteBound(a), ConcreteBound(b))
  {
    ConcreteBoundIsDim(a);
    ConcreteBoundIsDim(b);
    var boundA, boundB := ConcreteBound(a), ConcreteBound(b);
    ConcreteDimsStuck(boundA, boundB);
  }

  /** A wildcard dim carrying a warning against the plain `Dim`: the source's `dimIntersect` never returns. */
  lemma WildcardWithWarningDiverges(w: STypeException, errorPrefix: string)
    ensures DimIntersectAsWritten(WildcardDim(Some(w)), DefaultWildcardDim, errorPrefix) == Diverges
  {
    var x := WildcardDim(Some(w));
    assert DimSubtype(x, DefaultWildcardDim) == NOTSUBTYPE;
    assert DimSubtype(DefaultWildcardDim, x) == NOTSUBTYPE;
  }

  /** Equal dims: the left one when it carries an error, else the right one. */
  lemma DimIntersectEqual(a: SType, b: SType, errorPrefix: string)
    requires SEq(a, b)
    ensures Error(a).Some? ==> DimIntersect(a, b, errorPrefix) == a
    ensures Error(a).None? ==> DimIntersect(a, b, errorPrefix) == b
  {
  }

  /** A subtype on one side is kept, with a warning naming the other side. */
  lemma DimIntersectKeepsSubtype(a: SType, b: SType, errorPrefix: string)
    requires !SEq(a, b) && IsDim(a) && IsDim(b)
    ensures IsSubtypeOf(a, b) ==> DimIntersect(a, b, errorPrefix) == WithException(a, MayNotEqual(errorPrefix, b, a))
    ensures !IsSubtypeOf(a, b) && IsSubtypeOf(b, a) ==> DimIntersect(a, b, errorPrefix) == WithException(b, MayNotEqual(errorPrefix, a, b))
    ensures IsSubtypeOf(a, b) || IsSubtypeOf(b, a) ==> Level(Error(DimIntersect(a, b, errorPrefix)).value) == WARNING
  {
  }

  /** Unrelated dims with conflicting concrete bounds give an ErrorDim with an STypeFailure. */
  lemma DimIntersectConflict(a: SType, b: SType, errorPrefix: string)
    requires !SEq(a, b) && !IsSubtypeOf(a, b) && !IsSubtypeOf(b, a) && ConflictingDims(a, b)
    ensures DimIntersect(a, b, errorPrefix) == ErrorDim(CannotBeEqual(errorPrefix, a, b))
    ensures DimIntersectAsWritten(a, b, errorPrefix) == Returns(ErrorDim(CannotBeEqual(errorPrefix, a, b)))
  {
  }

  /** Two numeric dims: the right one if the values agree, else an ErrorDim saying they cannot be equal. */
  lemma DimIntersectNumerics(v: int, w: int, errorPrefix: string)
    ensures v == w ==> DimIntersect(NumericDim(v, None), NumericDim(w, None), errorPrefix) == NumericDim(w, None)
    ensures v != w ==> DimIntersect(NumericDim(v, None), NumericDim(w, None), errorPrefix).ErrorDim?
  {
    NumericDimRules(v, w, None, None);
    NumericDimRules(w, v, None, None);
  }

  /** `Dim` against a number: the number, with a warning naming the wildcard. */
  lemma WildcardAgainstNumber(v: int, errorPrefix: string)
    ensures DimIntersectAsWritten(DefaultWildcardDim, NumericDim(v, None), errorPrefix) ==
      Returns(WithException(NumericDim(v, None), MayNotEqual(errorPrefix, DefaultWildcardDim, NumericDim(v, None))))
  {
    var n := NumericDim(v, None);
    assert Subtype(DefaultWildcardDim, n) == NOTSUBTYPE;
    assert Subtype(n, DefaultWildcardDim) == STRICTSUBTYPE;
  }

  /** A symbol bounded by `Dim` is unrelated to a number in both directions. */
  lemma SymbolUnrelatedToNumber(a: SType, v: int)
    requires a.SymbolicDim? && a.bound == DefaultWildcardDim
    ensures !IsSubtypeOf(a, NumericDim(v, None)) && !IsSubtypeOf(NumericDim(v, None), a)
  {
    var n := NumericDim(v, None);
    assert DimSubtype(DefaultWildcardDim, n) == NOTSUBTYPE;
    assert StepSubtypeTest(DefaultWildcardDim, a.isStrictBound, n) == NOTSUBTYPE;
    assert WalkBounds(DefaultWildcardDim, a.isStrictBound, n, false) == NOTSUBTYPE;
    assert DimSubtype(a, n) == WalkBounds(a.bound, a.isStrictBound, n, false);
    assert Subtype(a, n) == DimSubtype(a, n);
    assert DimSubtype(n, a) == NOTSUBTYPE;
  }

  /** A symbol bounded by `Dim` against a number: the number, warned about the wildcard (ConcatOnAxisTest). */
  lemma SymbolAgainstNumberExample(name: string, id: int, v: int, errorPrefix: string)
    ensures var a := SymbolicDim(name, DefaultWildcardDim, false, id, None);
      DimIntersect(a, NumericDim(v, None), errorPrefix) ==
        NumericDim(v, Some(STypeStrictModeException(errorPrefix + "Dim" + " may not be exactly equal to " + IntToString(v))))
  {
    var a := SymbolicDim(name, DefaultWildcardDim, false, id, None);
    var n := NumericDim(v, None);
    SymbolUnrelatedToNumber(a, v);
    WildcardAgainstNumber(v, errorPrefix);
    assert DimIntersectAsWritten(a, n, errorPrefix) == DimIntersectAsWritten(DefaultWildcardDim, n, errorPrefix);
  }
}
