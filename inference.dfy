/**
 * Inference of symbol substitutions: an argument's SType is matched against the SType its parameter
 * declares, relaxing symbols to their bounds until the argument is a subtype of the constraint, and
 * the symbols of the constraint are bound to the corresponding parts of the argument.
 */
module Inference {
  import opened Wrappers
  import opened STypes
  import opened STypeUtils
  import opened Generics
  import AnalysisSubtyper

  /** `ArgTypeToConstraint`: an argument's SType and the SType its parameter declares. */
  datatype ArgTypeToConstraint = ArgTypeToConstraint(argType: SType, constraint: SType)

  /** Some symbol is bound in both maps, to values that are not equal. */
  predicate Clash(a: Substitutions, b: Substitutions)
  {
    exists k :: k in a && k in b && !SEq(a[k], b[k])
  }

  /** `canSubstituteWith`: `other` lies below the symbol's declared bound, strictly when the bound is strict. */
  predicate CanSubstituteWith(sym: SType, other: SType)
    requires IsSymbolic(sym)
  {
    if sym.isStrictBound then AnalysisSubtyper.IsStrictSubtypeOf(other, sym.bound)
    else AnalysisSubtyper.IsSubtypeOf(other, sym.bound)
  }

  /** A symbol may be replaced by its own (error-free) bound exactly when that bound is not strict. */
  lemma CanSubstituteWithOwnBound(sym: SType)
    requires IsSymbolic(sym) && !ContainsErrors(sym.bound)
    ensures CanSubstituteWith(sym, sym.bound) <==> !sym.isStrictBound
  {
    AnalysisSubtyper.SubtypeReflexive(sym.bound);
  }

  /** A strict bound admits only strict subtypes, a non-strict one every subtype. */
  lemma CanSubstituteWithStrictness(sym: SType, other: SType)
    requires IsSymbolic(sym)
    ensures CanSubstituteWith(sym, other) ==> AnalysisSubtyper.IsSubtypeOf(other, sym.bound)
    ensures AnalysisSubtyper.IsStrictSubtypeOf(other, sym.bound) ==> CanSubstituteWith(sym, other)
  {
  }

  // ---------------------------------------------------------------------------------------------
  // getSubstitutionsToSubstituteInto

  /** Whether a constraint position is bound: symbolic dims only (dim shapes), or any symbol (call arguments). */
  predicate Binds(o: SType, dimsOnly: bool)
  {
    if dimsOnly then o.SymbolicDim? else IsSymbolic(o)
  }

  /**
   * The bindings of a zipped pair of lists: each binding position of the constraint list `os` is sent to
   * the argument at the same index; a later position overwrites an earlier one for the same symbol.
   */
  function PositionBindings(os: seq<SType>, ts: seq<SType>, dimsOnly: bool): Substitutions
    decreases |os|
  {
    if os == [] || ts == [] then map[]
    else (if Binds(os[0], dimsOnly) then map[Key(os[0]) := ts[0]] else map[]) + PositionBindings(os[1..], ts[1..], dimsOnly)
  }

  /** Index `i` is the last binding position of the zipped lists for its symbol. */
  predicate LastBinder(os: seq<SType>, ts: seq<SType>, dimsOnly: bool, i: int)
    requires 0 <= i < |os| && i < |ts|
  {
    Binds(os[i], dimsOnly) &&
    forall j :: i < j < |os| && j < |ts| && Binds(os[j], dimsOnly) ==> Key(os[j]) != Key(os[i])
  }

  /**
   * Exactly the symbols at binding positions are bound, and each to the argument at its last
   * binding position.
   */
  lemma PositionBindingsSpec(os: seq<SType>, ts: seq<SType>, dimsOnly: bool)
    ensures forall i :: 0 <= i < |os| && i < |ts| && Binds(os[i], dimsOnly) ==> Key(os[i]) in PositionBindings(os, ts, dimsOnly)
    ensures forall k :: k in PositionBindings(os, ts, dimsOnly) ==>
      exists i :: 0 <= i < |os| && i < |ts| && LastBinder(os, ts, dimsOnly, i) && Key(os[i]) == k &&
        PositionBindings(os, ts, dimsOnly)[k] == ts[i]
  {
    PositionBindingsDomain(os, ts, dimsOnly);
    PositionBindingsValues(os, ts, dimsOnly);
  }

  lemma {:induction false} PositionBindingsDomain(os: seq<SType>, ts: seq<SType>, dimsOnly: bool)
    ensures forall i :: 0 <= i < |os| && i < |ts| && Binds(os[i], dimsOnly) ==> Key(os[i]) in PositionBindings(os, ts, dimsOnly)
    decreases |os|
  {
    if os != [] && ts != [] {
      PositionBindingsDomain(os[1..], ts[1..], dimsOnly);
      forall i | 0 < i < |os| && i < |ts| && Binds(os[i], dimsOnly)
        ensures Key(os[i]) in PositionBindings(os, ts, dimsOnly)
      {
        assert os[1..][i - 1] == os[i];
      }
    }
  }

  lemma {:induction false} PositionBindingsValues(os: seq<SType>, ts: seq<SType>, dimsOnly: bool)
    ensures forall k :: k in PositionBindings(os, ts, dimsOnly) ==>
      exists i :: 0 <= i < |os| && i < |ts| && LastBinder(os, ts, dimsOnly, i) && Key(os[i]) == k &&
        PositionBindings(os, ts, dimsOnly)[k] == ts[i]
    decreases |os|
  {
    if os != [] && ts != [] {
      var m := PositionBindings(os, ts, dimsOnly);
      var rest := PositionBindings(os[1..], ts[1..], dimsOnly);
      PositionBindingsValues(os[1..], ts[1..], dimsOnly);
      PositionBindingsDomain(os[1..], ts[1..], dimsOnly);
      forall k | k in m
        ensures exists i :: 0 <= i < |os| && i < |ts| && LastBinder(os, ts, dimsOnly, i) && Key(os[i]) == k && m[k] == ts[i]
      {
        if k in rest {
          var i' :| 0 <= i' < |os[1..]| && i' < |ts[1..]| && LastBinder(os[1..], ts[1..], dimsOnly, i') && Key(os[1..][i']) == k && rest[k] == ts[1..][i'];
          LastBinderShift(os, ts, dimsOnly, i');
          assert m[k] == rest[k];
        } else {
          assert Binds(os[0], dimsOnly) && k == Key(os[0]) && m[k] == ts[0];
          forall j | 0 < j < |os| && j < |ts| && Binds(os[j], dimsOnly)
            ensures Key(os[j]) != Key(os[0])
          {
            assert os[1..][j - 1] == os[j] && ts[1..][j - 1] == ts[j];
          }
          assert LastBinder(os, ts, dimsOnly, 0);
        }
      }
    }
  }

  /** A last binding position of the tails is one of the whole lists, one further on. */
  lemma LastBinderShift(os: seq<SType>, ts: seq<SType>, dimsOnly: bool, i: nat)
    requires os != [] && ts != [] && i < |os[1..]| && i < |ts[1..]| && LastBinder(os[1..], ts[1..], dimsOnly, i)
    ensures LastBinder(os, ts, dimsOnly, i + 1) && os[i + 1] == os[1..][i] && ts[i + 1] == ts[1..][i]
  {
    forall j | i + 1 < j < |os| && j < |ts| && Binds(os[j], dimsOnly)
      ensures Key(os[j]) != Key(os[i + 1])
    {
      assert os[1..][j - 1] == os[j];
    }
  }

  /**
   * `getSubstitutionsToSubstituteInto`: the bindings that turn the symbolic `other` into `t`, or None.
   * `require` throws when `other` has no symbols; the `as` casts throw when `t` is of another class
   * than `other` (the assertions before them are disabled on the JVM by default).
   */
  function SubstitutionsToSubstituteInto(t: SType, other: SType): (r: Result<Option<Substitutions>>)
    ensures !ContainsSymbols(other) ==> r == Fail(Thrown("IllegalArgumentException", "cannot substitute into non-symbolic shape"))
    decreases other, 1
  {
    if !ContainsSymbols(other) then Fail(Thrown("IllegalArgumentException", "cannot substitute into non-symbolic shape"))
    else if SEq(t, other) then Ok(Some(map[]))
    else
      match other
      case SymbolicShape(_, _, _, _, _) =>
        Ok(if IsShape(t) && CanSubstituteWith(other, t) then Some(map[Key(other) := t]) else None)
      case SymbolicDim(_, _, _, _, _) =>
        Ok(if IsDim(t) && CanSubstituteWith(other, t) then Some(map[Key(other) := t]) else None)
      case DimShape(ods, _) =>
        if t.DimShape? then Ok(Some(PositionBindings(ods, t.dims, true))) else Fail(CastFailure(t, "DimShape"))
      case ShapeFunctionCall(_, oargs, _) =>
        if t.ShapeFunctionCall? then Ok(Some(PositionBindings(oargs, t.args, false))) else Fail(CastFailure(t, "ShapeFunctionCall"))
      case STypeTuple(ots, _) =>
        if t.STypeTuple? then TupleBindings(ots, t.types, map[]) else Fail(CastFailure(t, "STypeTuple"))
      case NumericDim(_, _) => Fail(Thrown("Exception", "only SymbolicShapes, DimShapes, or ShapeFunctionCalls can be symbolic"))
      case WildcardDim(_) => Fail(Thrown("Exception", "only SymbolicShapes, DimShapes, or ShapeFunctionCalls can be symbolic"))
      case ErrorDim(_) => Fail(Thrown("Exception", "only SymbolicShapes, DimShapes, or ShapeFunctionCalls can be symbolic"))
      case WildcardShape(_) => Fail(Thrown("Exception", "only SymbolicShapes, DimShapes, or ShapeFunctionCalls can be symbolic"))
      case ErrorShape(_) => Fail(Thrown("Exception", "only SymbolicShapes, DimShapes, or ShapeFunctionCalls can be symbolic"))
      case ErrorUnknownClass(_) => Fail(Thrown("Exception", "only SymbolicShapes, DimShapes, or ShapeFunctionCalls can be symbolic"))
  }

  /**
   * The tuple case: components of the constraint that contain symbols are matched in order against the
   * argument's components, and their maps merged into `res`; a component without a match or disagreeing
   * with `res` on some symbol makes the whole match None.
   */
  function TupleBindings(os: seq<SType>, ts: seq<SType>, res: Substitutions): (r: Result<Option<Substitutions>>)
    ensures r.Ok? && r.value.Some? ==> res.Keys <= r.value.value.Keys
    decreases os
  {
    if os == [] || ts == [] then Ok(Some(res))
    else if ContainsSymbols(os[0]) then
      var subs :- SubstitutionsToSubstituteInto(ts[0], os[0]);
      if subs.None? || Clash(res, subs.value) then Ok(None)
      else TupleBindings(os[1..], ts[1..], res + subs.value)
    else TupleBindings(os[1..], ts[1..], res)
  }

  /**
   * A successful tuple match binds every symbol its symbol-containing components bind, to a value
   * equal to the component's; the values already in `res` are kept up to equality.
   */
  lemma {:induction false} TupleBindingsMerge(os: seq<SType>, ts: seq<SType>, res: Substitutions)
    requires TupleBindings(os, ts, res).Ok? && TupleBindings(os, ts, res).value.Some?
    ensures var m := TupleBindings(os, ts, res).value.value;
      forall k :: k in res ==> k in m && SEq(m[k], res[k])
    ensures var m := TupleBindings(os, ts, res).value.value;
      forall i :: 0 <= i < |os| && i < |ts| && ContainsSymbols(os[i]) ==>
        SubstitutionsToSubstituteInto(ts[i], os[i]).Ok? && SubstitutionsToSubstituteInto(ts[i], os[i]).value.Some? &&
        forall k :: k in SubstitutionsToSubstituteInto(ts[i], os[i]).value.value ==>
          k in m && SEq(m[k], SubstitutionsToSubstituteInto(ts[i], os[i]).value.value[k])
    decreases os
  {
    if os != [] && ts != [] {
      var m := TupleBindings(os, ts, res).value.value;
      if ContainsSymbols(os[0]) {
        var subs := SubstitutionsToSubstituteInto(ts[0], os[0]).value.value;
        var res' := res + subs;
        TupleBindingsMerge(os[1..], ts[1..], res');
        forall k | k in res ensures k in m && SEq(m[k], res[k]) {
          assert SEq(m[k], res'[k]);
          if k in subs {
            assert SEq(res[k], subs[k]);
            SEqSymmetric(res[k], subs[k]);
            SEqTransitive(m[k], subs[k], res[k]);
          }
        }
        forall k | k in subs ensures k in m && SEq(m[k], subs[k]) {
          assert SEq(m[k], res'[k]);
        }
        forall i | 1 <= i < |os| && i < |ts| && ContainsSymbols(os[i])
          ensures SubstitutionsToSubstituteInto(ts[i], os[i]).Ok? && SubstitutionsToSubstituteInto(ts[i], os[i]).value.Some?
        {
          assert os[1..][i - 1] == os[i] && ts[1..][i - 1] == ts[i];
        }
        forall i, k | 1 <= i < |os| && i < |ts| && ContainsSymbols(os[i]) && k in SubstitutionsToSubstituteInto(ts[i], os[i]).value.value
          ensures k in m && SEq(m[k], SubstitutionsToSubstituteInto(ts[i], os[i]).value.value[k])
        {
          assert os[1..][i - 1] == os[i] && ts[1..][i - 1] == ts[i];
        }
      } else {
        TupleBindingsMerge(os[1..], ts[1..], res);
        forall i | 1 <= i < |os| && i < |ts| && ContainsSymbols(os[i])
          ensures SubstitutionsToSubstituteInto(ts[i], os[i]).Ok? && SubstitutionsToSubstituteInto(ts[i], os[i]).value.Some?
        {
          assert os[1..][i - 1] == os[i] && ts[1..][i - 1] == ts[i];
        }
        forall i, k | 1 <= i < |os| && i < |ts| && ContainsSymbols(os[i]) && k in SubstitutionsToSubstituteInto(ts[i], os[i]).value.value
          ensures k in m && SEq(m[k], SubstitutionsToSubstituteInto(ts[i], os[i]).value.value[k])
        {
          assert os[1..][i - 1] == os[i] && ts[1..][i - 1] == ts[i];
        }
      }
    } else {
      forall k | k in res ensures SEq(res[k], res[k]) {
        SEqReflexive(res[k]);
      }
    }
  }

  /** In a successful tuple match no two symbol-containing components bind one symbol to unequal values. */
  lemma TupleBindingsAgree(os: seq<SType>, ts: seq<SType>, res: Substitutions, i: nat, j: nat)
    requires TupleBindings(os, ts, res).Ok? && TupleBindings(os, ts, res).value.Some?
    requires i < |os| && i < |ts| && j < |os| && j < |ts| && ContainsSymbols(os[i]) && ContainsSymbols(os[j])
    ensures SubstitutionsToSubstituteInto(ts[i], os[i]).Ok? && SubstitutionsToSubstituteInto(ts[i], os[i]).value.Some?
    ensures SubstitutionsToSubstituteInto(ts[j], os[j]).Ok? && SubstitutionsToSubstituteInto(ts[j], os[j]).value.Some?
    ensures !Clash(SubstitutionsToSubstituteInto(ts[i], os[i]).value.value, SubstitutionsToSubstituteInto(ts[j], os[j]).value.value)
  {
    TupleBindingsMerge(os, ts, res);
    var m := TupleBindings(os, ts, res).value.value;
    var ci := SubstitutionsToSubstituteInto(ts[i], os[i]).value.value;
    var cj := SubstitutionsToSubstituteInto(ts[j], os[j]).value.value;
    forall k | k in ci && k in cj ensures SEq(ci[k], cj[k]) {
      SEqSymmetric(m[k], ci[k]);
      SEqTransitive(ci[k], m[k], cj[k]);
    }
  }

  // ---------------------------------------------------------------------------------------------
  // inferSubstitutionMap

  /**
   * `getSubstitutions`: the bindings that turn `prevOther` into `curr`, unless one of them disagrees with
   * a substitution made before.
   */
  function NewSubstitutions(curr: SType, prevOther: SType, previous: Substitutions): (r: Result<Option<Substitutions>>)
    ensures r.Ok? && r.value.Some? ==> !Clash(r.value.value, previous)
  {
    var ns :- SubstitutionsToSubstituteInto(curr, prevOther);
    Ok(if ns.None? || Clash(ns.value, previous) then None else ns)
  }

  /**
   * The loop over the iterator's pairs: the first pair whose left side is a subtype of its right side
   * ends the loop, and its bindings are taken against the constraint of the pair before it.
   */
  function InferFromPairs(pairs: seq<(SType, SType)>, prevOther: SType, previous: Substitutions): Result<Option<Substitutions>>
    decreases |pairs|
  {
    if pairs == [] then Ok(None)
    else if AnalysisSubtyper.IsSubtypeOf(pairs[0].0, pairs[0].1) then NewSubstitutions(pairs[0].0, prevOther, previous)
    else InferFromPairs(pairs[1..], pairs[0].1, previous)
  }

  /** What `inferSubstitutionMap` computes, over the iterator's pairs of relaxations. */
  function InferSubstitutions(t: SType, other: SType, previous: Substitutions): Result<Option<Substitutions>>
  {
    if !ContainsSymbols(other) then Ok(None)
    else InferFromPairs(Product(RelaxChain(t), RelaxChain(other)), other, previous)
  }

  /** `inferSubstitutionMap`: walks a `BoundSubstitutionIterator` over `t` and `other`, remembering the previous constraint. */
  method InferSubstitutionMap(t: SType, other: SType, previous: Substitutions) returns (r: Result<Option<Substitutions>>)
    ensures r == InferSubstitutions(t, other, previous)
  {
    if !ContainsSymbols(other) {
      return Ok(None);
    }
    var prevSubForOther := other;
    var subs := new BoundSubstitutionIterator(t, other);
    while subs.HasNext()
      invariant InferFromPairs(subs.Remaining(), prevSubForOther, previous) == InferSubstitutions(t, other, previous)
      decreases |subs.Remaining()|
    {
      var pair := subs.Next();
      if AnalysisSubtyper.IsSubtypeOf(pair.0, pair.1) {
        return NewSubstitutions(pair.0, prevSubForOther, previous);
      }
      prevSubForOther := pair.1;
    }
    return Ok(None);
  }

  /** Bindings are only ever taken from a pair related by the subtyper, and never clash with the previous map. */
  lemma {:induction false} InferFromPairsSound(pairs: seq<(SType, SType)>, prevOther: SType, previous: Substitutions)
    requires InferFromPairs(pairs, prevOther, previous).Ok? && InferFromPairs(pairs, prevOther, previous).value.Some?
    ensures exists i :: 0 <= i < |pairs| && AnalysisSubtyper.IsSubtypeOf(pairs[i].0, pairs[i].1)
    ensures !Clash(InferFromPairs(pairs, prevOther, previous).value.value, previous)
    decreases |pairs|
  {
    if !AnalysisSubtyper.IsSubtypeOf(pairs[0].0, pairs[0].1) {
      InferFromPairsSound(pairs[1..], pairs[0].1, previous);
      var i :| 0 <= i < |pairs[1..]| && AnalysisSubtyper.IsSubtypeOf(pairs[1..][i].0, pairs[1..][i].1);
      assert pairs[1..][i] == pairs[i + 1];
    }
  }

  /** When no pair is related by the subtyper, nothing is inferred. */
  lemma {:induction false} InferFromPairsUnrelated(pairs: seq<(SType, SType)>, prevOther: SType, previous: Substitutions)
    requires forall i :: 0 <= i < |pairs| ==> !AnalysisSubtyper.IsSubtypeOf(pairs[i].0, pairs[i].1)
    ensures InferFromPairs(pairs, prevOther, previous) == Ok(None)
    decreases |pairs|
  {
    if pairs != [] {
      assert !AnalysisSubtyper.IsSubtypeOf(pairs[0].0, pairs[0].1);
      forall i | 0 <= i < |pairs[1..]| ensures !AnalysisSubtyper.IsSubtypeOf(pairs[1..][i].0, pairs[1..][i].1) {
        assert pairs[1..][i] == pairs[i + 1];
      }
      InferFromPairsUnrelated(pairs[1..], pairs[0].1, previous);
    }
  }

  // ---------------------------------------------------------------------------------------------
  // The folds over arguments

  /** `inferArgAgainstConstraint`: the new bindings with the existing substitutions laid over them. */
  function InferArgAgainstConstraint(argument: SType, constraint: SType, substitutions: Substitutions): (r: Result<Option<Substitutions>>)
    ensures !ContainsSymbols(constraint) ==> r == Ok(None)
    ensures r.Ok? && r.value.Some? ==> forall k :: k in substitutions ==> k in r.value.value && r.value.value[k] == substitutions[k]
  {
    var ns :- InferSubstitutions(argument, constraint, substitutions);
    Ok(if ns.None? then None else Some(ns.value + substitutions))
  }

  /** A successful step adds only bindings inferred from the argument, and none of them disagree with the existing ones. */
  lemma InferArgAddsAgreeingBindings(argument: SType, constraint: SType, substitutions: Substitutions)
    requires InferArgAgainstConstraint(argument, constraint, substitutions).Ok?
    requires InferArgAgainstConstraint(argument, constraint, substitutions).value.Some?
    ensures var ns := InferSubstitutions(argument, constraint, substitutions);
      ns.Ok? && ns.value.Some? && !Clash(ns.value.value, substitutions) &&
      InferArgAgainstConstraint(argument, constraint, substitutions).value.value.Keys == ns.value.value.Keys + substitutions.Keys
  {
    InferFromPairsSound(Product(RelaxChain(argument), RelaxChain(constraint)), constraint, substitutions);
  }

  /** The fold of `inferArgsAgainstConstraint` from an intermediate value: None stays None. */
  function InferArgsFrom(args: seq<ArgTypeToConstraint>, subs: Option<Substitutions>): Result<Option<Substitutions>>
    decreases |args|
  {
    if args == [] then Ok(subs)
    else if subs.None? then InferArgsFrom(args[1..], None)
    else
      var next :- InferArgAgainstConstraint(args[0].argType, args[0].constraint, subs.value);
      InferArgsFrom(args[1..], next)
  }

  /** `inferArgsAgainstConstraint`: each argument is matched in turn against its constraint. */
  function InferArgsAgainstConstraint(args: seq<ArgTypeToConstraint>, substitutions: Substitutions): Result<Option<Substitutions>>
  {
    InferArgsFrom(args, Some(substitutions))
  }

  /** Once a step has failed the fold stays None (no later argument is even inspected). */
  lemma {:induction false} InferArgsStaysFailed(args: seq<ArgTypeToConstraint>)
    ensures InferArgsFrom(args, None) == Ok(None)
    decreases |args|
  {
    if args != [] {
      InferArgsStaysFailed(args[1..]);
    }
  }

  /** A successful fold keeps every incoming substitution as it was. */
  lemma {:induction false} InferArgsExtends(args: seq<ArgTypeToConstraint>, subs: Substitutions)
    requires InferArgsFrom(args, Some(subs)).Ok? && InferArgsFrom(args, Some(subs)).value.Some?
    ensures forall k :: k in subs ==> (k in InferArgsFrom(args, Some(subs)).value.value &&
      InferArgsFrom(args, Some(subs)).value.value[k] == subs[k])
    decreases |args|
  {
    if args != [] {
      var next := InferArgAgainstConstraint(args[0].argType, args[0].constraint, subs).value;
      if next.None? {
        InferArgsStaysFailed(args[1..]);
      } else {
        InferArgsExtends(args[1..], next.value);
      }
    }
  }

  /** The fold of `latestValidInference` from an intermediate pair of map and flag. */
  function LatestValidFrom(args: seq<ArgTypeToConstraint>, subs: Substitutions, valid: bool): Result<(Substitutions, bool)>
    decreases |args|
  {
    if args == [] then Ok((subs, valid))
    else
      var inferred :- InferArgAgainstConstraint(args[0].argType, args[0].constraint, subs);
      if inferred.Some? then LatestValidFrom(args[1..], inferred.value, valid)
      else LatestValidFrom(args[1..], subs, false)
  }

  /** `latestValidInference`: a failing argument is skipped (its bindings discarded) and the flag cleared. */
  function LatestValidInference(args: seq<ArgTypeToConstraint>, substitutions: Substitutions): Result<(Substitutions, bool)>
  {
    LatestValidFrom(args, substitutions, true)
  }

  /** Accumulated substitutions are never dropped or changed, and a cleared flag stays cleared. */
  lemma {:induction false} LatestValidKeeps(args: seq<ArgTypeToConstraint>, subs: Substitutions, valid: bool)
    requires LatestValidFrom(args, subs, valid).Ok?
    ensures forall k :: k in subs ==> (k in LatestValidFrom(args, subs, valid).value.0 &&
      LatestValidFrom(args, subs, valid).value.0[k] == subs[k])
    ensures !valid ==> !LatestValidFrom(args, subs, valid).value.1
    decreases |args|
  {
    if args != [] {
      var inferred := InferArgAgainstConstraint(args[0].argType, args[0].constraint, subs).value;
      if inferred.Some? {
        LatestValidKeeps(args[1..], inferred.value, valid);
      } else {
        LatestValidKeeps(args[1..], subs, false);
      }
    }
  }

  /**
   * The flag is true exactly when every step succeeded, and then the map is the one
   * `inferArgsAgainstConstraint` returns.
   */
  lemma {:induction false} LatestValidAgreesWithInferArgs(args: seq<ArgTypeToConstraint>, subs: Substitutions, m: Substitutions)
    ensures LatestValidFrom(args, subs, true) == Ok((m, true)) <==> InferArgsFrom(args, Some(subs)) == Ok(Some(m))
    decreases |args|
  {
    if args != [] {
      var step := InferArgAgainstConstraint(args[0].argType, args[0].constraint, subs);
      if step.Ok? {
        if step.value.Some? {
          LatestValidAgreesWithInferArgs(args[1..], step.value.value, m);
        } else {
          InferArgsStaysFailed(args[1..]);
          if LatestValidFrom(args[1..], subs, false).Ok? {
            LatestValidKeeps(args[1..], subs, false);
          }
        }
      }
    }
  }

  // ---------------------------------------------------------------------------------------------
  // fullyInferredFrom and allBounds

  /** `fullyInferredFrom`: every symbol reachable through dims, call args and tuple types has a substitution. */
  predicate FullyInferredFrom(t: SType, substitutions: Substitutions)
    decreases t
  {
    match t
    case SymbolicShape(_, _, _, _, _) => Key(t) in substitutions
    case SymbolicDim(_, _, _, _, _) => Key(t) in substitutions
    case DimShape(ds, _) => forall i :: 0 <= i < |ds| ==> FullyInferredFrom(ds[i], substitutions)
    case ShapeFunctionCall(_, args, _) => forall i :: 0 <= i < |args| ==> FullyInferredFrom(args[i], substitutions)
    case STypeTuple(ts, _) => forall i :: 0 <= i < |ts| ==> FullyInferredFrom(ts[i], substitutions)
    case NumericDim(_, _) => true
    case WildcardDim(_) => true
    case ErrorDim(_) => true
    case WildcardShape(_) => true
    case ErrorShape(_) => true
    case ErrorUnknownClass(_) => true
  }

  /** With no substitutions, a value is fully inferred exactly when it contains no symbols. */
  lemma {:induction false} FullyInferredFromNothing(t: SType)
    ensures FullyInferredFrom(t, map[]) <==> !ContainsSymbols(t)
    decreases t
  {
    ContainsSymbolsIff(t);
    forall i | 0 <= i < |Children(t)| ensures FullyInferredFrom(Children(t)[i], map[]) <==> !ContainsSymbols(Children(t)[i]) {
      FullyInferredFromNothing(Children(t)[i]);
    }
    match t
    case DimShape(ds, _) => assert Children(t) == ds;
    case ShapeFunctionCall(_, args, _) => assert Children(t) == args;
    case STypeTuple(ts, _) => assert Children(t) == ts;
    case SymbolicShape(_, _, _, _, _) =>
    case SymbolicDim(_, _, _, _, _) =>
    case NumericDim(_, _) =>
    case WildcardDim(_) =>
    case ErrorDim(_) =>
    case WildcardShape(_) =>
    case ErrorShape(_) =>
    case ErrorUnknownClass(_) =>
  }

  /** More substitutions never make a value less inferred. */
  lemma {:induction false} FullyInferredMonotone(t: SType, m: Substitutions, m': Substitutions)
    requires m.Keys <= m'.Keys && FullyInferredFrom(t, m)
    ensures FullyInferredFrom(t, m')
    decreases t
  {
    match t
    case DimShape(ds, _) =>
      forall i | 0 <= i < |ds| ensures FullyInferredFrom(ds[i], m') { FullyInferredMonotone(ds[i], m, m'); }
    case ShapeFunctionCall(_, args, _) =>
      forall i | 0 <= i < |args| ensures FullyInferredFrom(args[i], m') { FullyInferredMonotone(args[i], m, m'); }
    case STypeTuple(ts, _) =>
      forall i | 0 <= i < |ts| ensures FullyInferredFrom(ts[i], m') { FullyInferredMonotone(ts[i], m, m'); }
    case SymbolicShape(_, _, _, _, _) =>
    case SymbolicDim(_, _, _, _, _) =>
    case NumericDim(_, _) =>
    case WildcardDim(_) =>
    case ErrorDim(_) =>
    case WildcardShape(_) =>
    case ErrorShape(_) =>
    case ErrorUnknownClass(_) =>
  }

  /** The rest of the bound chain still to be collected from `curr`. */
  function BoundsFrom(curr: SType, isShape: bool): seq<SType>
  {
    if IsKindSymbol(curr, isShape) then BoundChain(curr.bound, isShape) else []
  }

  lemma BoundsFromStep(result: seq<SType>, curr: SType, isShape: bool, chain: seq<SType>)
    requires IsKindSymbol(curr, isShape) && result + BoundsFrom(curr, isShape) == chain
    ensures (result + [curr.bound]) + BoundsFrom(curr.bound, isShape) == chain
  {
    SnocAssociative(result, curr.bound, BoundsFrom(curr.bound, isShape));
  }

  /** `allBounds`: the successive upper bounds of a symbol, ending at the first one that is not a symbol. */
  method AllBounds(t: SType) returns (result: seq<SType>)
    requires IsSymbolic(t)
    ensures result == BoundChain(t.bound, t.SymbolicShape?)
  {
    var isShape := t.SymbolicShape?;
    ghost var chain := BoundChain(t.bound, isShape);
    var curr := t;
    result := [];
    assert BoundsFrom(t, isShape) == chain;
    while IsKindSymbol(curr, isShape)
      invariant result + BoundsFrom(curr, isShape) == chain
      decreases curr
    {
      var next := curr.bound;
      BoundsFromStep(result, curr, isShape, chain);
      result := result + [next];
      curr := next;
    }
    assert BoundsFrom(curr, isShape) == [];
    AppendEmpty(result);
  }

  // ---------------------------------------------------------------------------------------------
  // Examples from the inference tests (symbols bounded by a wildcard dim, not strict, scope 0)

  function DimSymbol(name: string): SType
  {
    SymbolicDim(name, WildcardDim(None), false, 0, None)
  }

  function Num(v: int): SType
  {
    NumericDim(v, None)
  }

  /** A unique relaxation of the constraint that the argument fits under fixes the bindings. */
  lemma InferOnSecondPair(arg: SType, c: SType, relaxed: SType, previous: Substitutions)
    requires ContainsSymbols(c)
    requires Product(RelaxChain(arg), RelaxChain(c)) == [(arg, c), (arg, relaxed)]
    requires !AnalysisSubtyper.IsSubtypeOf(arg, c) && AnalysisSubtyper.IsSubtypeOf(arg, relaxed)
    ensures InferSubstitutions(arg, c, previous) == NewSubstitutions(arg, c, previous)
  {
    var pairs := [(arg, c), (arg, relaxed)];
    assert InferSubstitutions(arg, c, previous) == InferFromPairs(pairs, c, previous);
    assert pairs[1..] == [(arg, relaxed)];
    assert InferFromPairs(pairs, c, previous) == InferFromPairs([(arg, relaxed)], c, previous);
  }

  /** A symbol-free argument against a constraint whose relaxation is symbol-free: two pairs. */
  lemma TwoPairs(arg: SType, c: SType, relaxed: SType)
    requires !ContainsSymbols(arg) && ContainsSymbols(c) && Relax(c) == relaxed && !ContainsSymbols(relaxed)
    ensures Product(RelaxChain(arg), RelaxChain(c)) == [(arg, c), (arg, relaxed)]
  {
    assert RelaxChain(arg) == [arg];
    assert RelaxChain(relaxed) == [relaxed];
    assert RelaxChain(c) == [c, relaxed];
    assert PairWith(arg, [c, relaxed]) == [(arg, c), (arg, relaxed)];
    assert [arg][1..] == [];
    assert Product([], [c, relaxed]) == [];
    assert Product([arg], [c, relaxed]) == PairWith(arg, [c, relaxed]) + Product([], [c, relaxed]);
  }

  /** [2, 3] is not below [A, B] but strictly below [Dim, Dim]. */
  lemma NumericPairAgainstSymbols(x: int, y: int, a: SType, b: SType)
    requires a.SymbolicDim? && b.SymbolicDim?
    ensures !AnalysisSubtyper.IsSubtypeOf(DimShape([Num(x), Num(y)], None), DimShape([a, b], None))
    ensures AnalysisSubtyper.IsSubtypeOf(DimShape([Num(x), Num(y)], None), DimShape([WildcardDim(None), WildcardDim(None)], None))
    ensures !SEq(DimShape([Num(x), Num(y)], None), DimShape([a, b], None))
  {
    var arg := DimShape([Num(x), Num(y)], None);
    var c := DimShape([a, b], None);
    var relaxed := DimShape([WildcardDim(None), WildcardDim(None)], None);
    assert AnalysisSubtyper.Subtype(arg.dims[0], c.dims[0]) == AnalysisSubtyper.NOTSUBTYPE;
    AnalysisSubtyper.ListSubtypeCharacterization(arg.dims, c.dims);
    ListEqIff(c.dims, arg.dims);
    ListEqIff(arg.dims, c.dims);
    assert !SEq(c, arg);
    assert AnalysisSubtyper.Subtype(arg, c) == AnalysisSubtyper.ListSubtype(arg.dims, c.dims) == AnalysisSubtyper.NOTSUBTYPE;
    assert AnalysisSubtyper.Subtype(arg.dims[0], relaxed.dims[0]) == AnalysisSubtyper.STRICTSUBTYPE;
    assert AnalysisSubtyper.Subtype(arg.dims[1], relaxed.dims[1]) == AnalysisSubtyper.STRICTSUBTYPE;
    AnalysisSubtyper.ListSubtypeCharacterization(arg.dims, relaxed.dims);
  }

  /** Matching a rank-2 numeric shape against two unbounded dim symbols, which relax to [Dim, Dim]. */
  lemma NumericPairInference(x: int, y: int, a: SType, b: SType, previous: Substitutions)
    requires a.SymbolicDim? && b.SymbolicDim? && a.bound == WildcardDim(None) && b.bound == WildcardDim(None)
    ensures InferSubstitutions(DimShape([Num(x), Num(y)], None), DimShape([a, b], None), previous)
      == NewSubstitutions(DimShape([Num(x), Num(y)], None), DimShape([a, b], None), previous)
    ensures SubstitutionsToSubstituteInto(DimShape([Num(x), Num(y)], None), DimShape([a, b], None))
      == Ok(Some(map[Key(a) := Num(x)] + map[Key(b) := Num(y)]))
  {
    var arg := DimShape([Num(x), Num(y)], None);
    var c := DimShape([a, b], None);
    var relaxed := DimShape([WildcardDim(None), WildcardDim(None)], None);
    assert ContainsSymbols(c) by { assert RecursivePredicateAny(c.dims[0], IsSymbolic); }
    assert !ContainsSymbols(arg) by {
      assert !RecursivePredicateAny(arg.dims[0], IsSymbolic) && !RecursivePredicateAny(arg.dims[1], IsSymbolic);
    }
    assert Relax(c) == relaxed;
    assert !ContainsSymbols(relaxed) by {
      assert !RecursivePredicateAny(relaxed.dims[0], IsSymbolic) && !RecursivePredicateAny(relaxed.dims[1], IsSymbolic);
    }
    TwoPairs(arg, c, relaxed);
    NumericPairAgainstSymbols(x, y, a, b);
    InferOnSecondPair(arg, c, relaxed, previous);
    assert [a, b][1..] == [b] && [Num(x), Num(y)][1..] == [Num(y)];
    assert PositionBindings([], [], true) == map[];
    assert map[Key(b) := Num(y)] + map[] == map[Key(b) := Num(y)];
    assert PositionBindings([b], [Num(y)], true) == map[Key(b) := Num(y)] + PositionBindings([], [], true);
    assert PositionBindings([a, b], [Num(x), Num(y)], true) == map[Key(a) := Num(x)] + PositionBindings([b], [Num(y)], true);
    assert !SEq(arg, c);
    assert SubstitutionsToSubstituteInto(arg, c) == Ok(Some(PositionBindings(c.dims, arg.dims, true)));
  }

  /** The matmul test, first argument: [2, 3] against [A, B] gives {A: 2, B: 3}. */
  lemma MatmulFirstArgument()
    ensures InferArgAgainstConstraint(DimShape([Num(2), Num(3)], None), DimShape([DimSymbol("A"), DimSymbol("B")], None), map[])
      == Ok(Some(map[Key(DimSymbol("A")) := Num(2), Key(DimSymbol("B")) := Num(3)]))
  {
    var a, b := DimSymbol("A"), DimSymbol("B");
    NumericPairInference(2, 3, a, b, map[]);
    var ns := map[Key(a) := Num(2)] + map[Key(b) := Num(3)];
    assert !Clash(ns, map[]);
    assert ns + map[] == map[Key(a) := Num(2), Key(b) := Num(3)];
  }

  /** The matmul test, second argument: [3, 4] against [B, C] agrees on B and adds C: 4. */
  lemma MatmulSecondArgument()
    ensures InferArgAgainstConstraint(DimShape([Num(3), Num(4)], None), DimShape([DimSymbol("B"), DimSymbol("C")], None),
        map[Key(DimSymbol("A")) := Num(2), Key(DimSymbol("B")) := Num(3)])
      == Ok(Some(map[Key(DimSymbol("A")) := Num(2), Key(DimSymbol("B")) := Num(3), Key(DimSymbol("C")) := Num(4)]))
  {
    var a, b, c := DimSymbol("A"), DimSymbol("B"), DimSymbol("C");
    var first := map[Key(a) := Num(2), Key(b) := Num(3)];
    NumericPairInference(3, 4, b, c, first);
    var ns := map[Key(b) := Num(3)] + map[Key(c) := Num(4)];
    assert !Clash(ns, first) by {
      forall k | k in ns && k in first ensures SEq(ns[k], first[k]) {
        assert k == Key(b);
      }
    }
    assert ns + first == map[Key(a) := Num(2), Key(b) := Num(3), Key(c) := Num(4)];
  }

  /** The conflict test: [4, 4] against [B, C] would bind B to 4 where it is already 3, so the step fails. */
  lemma MatmulConflict()
    ensures InferArgAgainstConstraint(DimShape([Num(4), Num(4)], None), DimShape([DimSymbol("B"), DimSymbol("C")], None),
        map[Key(DimSymbol("A")) := Num(2), Key(DimSymbol("B")) := Num(3)])
      == Ok(None)
  {
    var a, b, c := DimSymbol("A"), DimSymbol("B"), DimSymbol("C");
    var first := map[Key(a) := Num(2), Key(b) := Num(3)];
    NumericPairInference(4, 4, b, c, first);
    var second := map[Key(b) := Num(4)] + map[Key(c) := Num(4)];
    assert Key(b) in second && Key(b) in first && !SEq(second[Key(b)], first[Key(b)]);
  }
}
