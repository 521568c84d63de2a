/** Properties of the parser's specification: what a successful parse looks like and which inputs fail how. */
module ParsingProperties {
  import opened Wrappers
  import opened Strings
  import opened Lexing
  import opened SNodes
  import opened DeclarationInfos
  import opened ParsingSpec

  // ---------------------------------------------------------------------------------------------
  // Integer literals

  /** `toInt` reads back what `toString` writes, signs included. */
  lemma ParseIntRoundTrip(n: int)
    ensures ParseInt(IntToString(n)) == Ok(n)
  {
    var s := IntToString(n);
    if n >= 0 {
      DigitsValueOfNatToString(n);
    } else {
      DigitsValueOfNatToString(-n);
      assert s[1..] == NatToString(-n);
      assert !IsDigit(s[0]);
    }
  }

  /** A string with a character that is neither a digit nor a leading sign is not a number. */
  lemma ParseIntRejects(s: string, i: nat)
    requires i < |s| && !IsDigit(s[i]) && !(i == 0 && |s| >= 2 && (s[0] == '-' || s[0] == '+'))
    ensures ParseInt(s) == Fail(Thrown("NumberFormatException", "For input string: \"" + s + "\""))
  {
    if i > 0 {
      assert s[1..][i - 1] == s[i];
    }
  }

  // ---------------------------------------------------------------------------------------------
  // Top level

  /** Nothing left to parse is an error in both modes. */
  lemma EmptyInputFails(toks: seq<Token>, own: Scope, outer: seq<Scope>, scopeId: Option<int>)
    ensures Parse(toks, ARGUMENT, own, outer, scopeId, |toks|) == Fail(ParsingError("No shape arguments provided"))
    ensures Parse(toks, DECLARATION, own, outer, scopeId, |toks|) == Fail(ParsingError("No declarations provided"))
  {
  }

  /**
   * A successful parse gives an argument list in ARGUMENT mode (leaving the scope table alone) and, in
   * DECLARATION mode, a non-empty declaration list that used up every token.
   */
  lemma ParseResults(toks: seq<Token>, mode: ParseMode, own: Scope, outer: seq<Scope>, scopeId: Option<int>, p: nat)
    requires p <= |toks|
    requires Parse(toks, mode, own, outer, scopeId, p).Ok?
    ensures var (node, own', q) := Parse(toks, mode, own, outer, scopeId, p).value;
      (mode == ARGUMENT ==> node.Arguments? && own' == own) &&
      (mode == DECLARATION ==> node.Declarations? && node.declarations.declarations != [] && q == |toks| &&
                               (scopeId.None? ==> own' == own))
  {
    if mode == DECLARATION {
      DeclarationsLoopOutcome(toks, own, outer, scopeId, toks[p].startIdx, [], p);
    }
  }

  // ---------------------------------------------------------------------------------------------
  // Declarations

  /**
   * A declaration is an identifier, "<:" (strict) or ":" (not strict), and a bound; the declared identifier
   * takes the bound's data type and the parser's scope id, and the declaration spans name to bound.
   */
  lemma DeclarationOutcome(toks: seq<Token>, scopes: seq<Scope>, scopeId: Option<int>, p: nat)
    requires p <= |toks|
    requires ParseDeclaration(toks, scopes, scopeId, p).Ok? && ParseDeclaration(toks, scopes, scopeId, p).value.Some?
    ensures var (dec, q) := ParseDeclaration(toks, scopes, scopeId, p).value.value;
      p + 2 < |toks| && toks[p].tokenType == IDENTIFIER &&
      (toks[p + 1].tokenType == SUBTYPE || toks[p + 1].tokenType == STRICTSUBTYPE) &&
      (dec.id.isStrictBound <==> toks[p + 1].tokenType == STRICTSUBTYPE) &&
      dec.id.upperBound.Some? && ParseDimOrShape(toks, scopes, p + 2) == Ok(Some((dec.id.upperBound.value, q))) &&
      dec.id.dataType == DataTypeOf(dec.id.upperBound.value) && dec.id.scopeId == scopeId &&
      dec.id.name == toks[p].text && dec.id.startIdx == toks[p].startIdx && dec.id.endIdx == toks[p].endIdx &&
      dec.startIdx == toks[p].startIdx && dec.endIdx == End(dec.id.upperBound.value)
  {
  }

  /** The four ways a declaration fails before its bound is parsed. */
  lemma DeclarationErrors(toks: seq<Token>, scopes: seq<Scope>, scopeId: Option<int>, p: nat)
    requires p < |toks|
    ensures toks[p].tokenType != IDENTIFIER ==>
      ParseDeclaration(toks, scopes, scopeId, p) == Fail(ParsingError("Invalid token for shape declaration: " + toks[p].text))
    ensures toks[p].tokenType == IDENTIFIER && p + 1 == |toks| ==>
      ParseDeclaration(toks, scopes, scopeId, p) == Fail(ParsingError("Expected subtype specification for " + toks[p].text))
    ensures toks[p].tokenType == IDENTIFIER && p + 1 < |toks| &&
            toks[p + 1].tokenType != SUBTYPE && toks[p + 1].tokenType != STRICTSUBTYPE ==>
      ParseDeclaration(toks, scopes, scopeId, p) == Fail(ParsingError("Expected parameter declaration with bound, got " + toks[p + 1].text))
    ensures toks[p].tokenType == IDENTIFIER && p + 2 == |toks| &&
            (toks[p + 1].tokenType == SUBTYPE || toks[p + 1].tokenType == STRICTSUBTYPE) ==>
      ParseDeclaration(toks, scopes, scopeId, p) == Fail(ParsingError("No constraint specified for parameter " + toks[p].text))
  {
  }

  /** A declaration followed by anything but "," or the end of input stops the list with an error. */
  lemma DeclarationNeedsSeparator(toks: seq<Token>, own: Scope, outer: seq<Scope>, scopeId: Option<int>, start: int,
                                  decs: seq<STypeDeclaration>, p: nat)
    requires p < |toks|
    requires var r := ParseDeclaration(toks, AllScopes(own, outer, scopeId), scopeId, p);
      r.Ok? && r.value.Some? && r.value.value.1 < |toks| && toks[r.value.value.1].tokenType != SEP
    ensures var next := toks[ParseDeclaration(toks, AllScopes(own, outer, scopeId), scopeId, p).value.value.1];
      DeclarationsLoop(toks, own, outer, scopeId, start, decs, p) ==
        Fail(ParsingError("Expected comma or end of declarations, instead got " + next.text + " at " + IntToString(next.startIdx)))
  {
  }

  /**
   * The scope table `own'` after the declarations `ds` entered `own` in order: an old entry stays unless a
   * declaration of its name replaced it, every new name is a declared one, and each declared name holds its
   * last declaration.
   */
  ghost predicate EnteredInOrder(own: Scope, own': Scope, ds: seq<STypeDeclaration>)
  {
    (forall n :: n in own ==> n in own' && (own'[n] == own[n] || exists i :: 0 <= i < |ds| && ds[i].id.name == n)) &&
    (forall n :: n in own' ==> n in own || exists i :: 0 <= i < |ds| && ds[i].id.name == n) &&
    (forall i :: 0 <= i < |ds| ==>
       (ds[i].id.name in own' && (own'[ds[i].id.name] == ds[i] || exists j :: i < j < |ds| && ds[j].id.name == ds[i].id.name)))
  }

  lemma EnteredNothing(own: Scope)
    ensures EnteredInOrder(own, own, [])
  {
  }

  lemma EnteredOneMore(own: Scope, dec: STypeDeclaration, own': Scope, ds: seq<STypeDeclaration>)
    requires EnteredInOrder(own[dec.id.name := dec], own', ds)
    ensures EnteredInOrder(own, own', [dec] + ds)
  {
    var all := [dec] + ds;
    assert forall i :: 1 <= i < |all| ==> all[i] == ds[i - 1];
    assert all[0] == dec;
    forall n | (n in own' && n !in own) || (n in own && own'[n] != own[n])
      ensures exists i :: 0 <= i < |all| && all[i].id.name == n
    {
      if n != dec.id.name {
        var i :| 0 <= i < |ds| && ds[i].id.name == n;
        assert all[i + 1].id.name == n;
      }
    }
    forall i | 0 <= i < |all|
      ensures all[i].id.name in own' && (own'[all[i].id.name] == all[i] || exists j :: i < j < |all| && all[j].id.name == all[i].id.name)
    {
      if i == 0 {
        if own'[dec.id.name] != dec {
          if exists k :: 0 <= k < |ds| && ds[k].id.name == dec.id.name {
            var k :| 0 <= k < |ds| && ds[k].id.name == dec.id.name;
            assert all[k + 1].id.name == dec.id.name;
          }
        }
      } else {
        if own'[all[i].id.name] != all[i] {
          var j :| i - 1 < j < |ds| && ds[j].id.name == ds[i - 1].id.name;
          assert all[j + 1].id.name == all[i].id.name;
        }
      }
    }
  }

  /** One round of the declaration loop: a declaration read, entered and followed by "," or the end of input. */
  lemma DeclarationsLoopStep(toks: seq<Token>, own: Scope, outer: seq<Scope>, scopeId: Option<int>,
                             start: int, decs: seq<STypeDeclaration>, p: nat)
    requires p < |toks|
    requires DeclarationsLoop(toks, own, outer, scopeId, start, decs, p).Ok?
    ensures var r := ParseDeclaration(toks, AllScopes(own, outer, scopeId), scopeId, p);
      r.Ok? && r.value.Some? &&
      var (dec, q) := r.value.value;
      var q1 := if q == |toks| then q else q + 1;
      p < q1 <= |toks| &&
      DeclarationsLoop(toks, own, outer, scopeId, start, decs, p) ==
        DeclarationsLoop(toks, if scopeId.Some? then own[dec.id.name := dec] else own, outer, scopeId, start, decs + [dec], q1)
  {
  }

  /**
   * What the declaration loop promises about its result `v`: it ends at the end of input, returns every
   * declaration read after those already read, starting where the list started; with a scope id, the
   * declarations read enter the scope table in order; without one it is untouched.
   */
  ghost predicate DeclarationsLoopResult(toks: seq<Token>, own: Scope, scopeId: Option<int>, start: int,
                                         decs: seq<STypeDeclaration>, v: (Option<DeclarationList>, Scope, nat))
  {
    var (list, own', q) := v;
    list.Some? &&
    var ds := list.value.declarations;
    q == |toks| && list.value.startIdx == start && ds != [] && list.value.endIdx == ds[|ds| - 1].endIdx &&
    |decs| <= |ds| && ds[..|decs|] == decs &&
    (scopeId.None? ==> own' == own) &&
    (scopeId.Some? ==> EnteredInOrder(own, own', ds[|decs|..]))
  }

  /** A result promised after one more declaration `dec` is promised before it. */
  lemma DeclarationsLoopResultExtends(toks: seq<Token>, own: Scope, scopeId: Option<int>, start: int,
                                      decs: seq<STypeDeclaration>, dec: STypeDeclaration, v: (Option<DeclarationList>, Scope, nat))
    requires DeclarationsLoopResult(toks, if scopeId.Some? then own[dec.id.name := dec] else own, scopeId, start, decs + [dec], v)
    ensures DeclarationsLoopResult(toks, own, scopeId, start, decs, v)
  {
    var ds := v.0.value.declarations;
    SplitAfterPrefix(ds, decs, dec);
    if scopeId.Some? {
      EnteredOneMore(own, dec, v.1, ds[|decs| + 1..]);
    }
  }

  /** One round of the argument loop after the argument `arg` read from `p` up to `q`, by the token at `q`. */
  lemma ArgumentsLoopRound(toks: seq<Token>, scopes: seq<Scope>, withParens: bool, start: int, curr: Token,
                           args: seq<STypeNode>, p: nat, arg: STypeNode, q: nat)
    requires p <= |toks| && q <= |toks| && curr.tokenType != RPARENS
    requires ParseDimOrShape(toks, scopes, p) == Ok(Some((arg, q)))
    ensures ArgumentsLoop(toks, scopes, withParens, start, Some(curr), args, p) ==
      if q == |toks| then
        if withParens then Fail(ParsingError(UnmatchedLeftParenthesis(start)))
        else ArgumentsLoop(toks, scopes, withParens, start, None, args + [arg], q)
      else if toks[q].tokenType == SEP then ArgumentsLoop(toks, scopes, withParens, start, At(toks, q + 1), args + [arg], q + 1)
      else if toks[q].tokenType == RPARENS then
        if withParens then ArgumentsLoop(toks, scopes, withParens, start, Some(toks[q]), args + [arg], q + 1)
        else Fail(ParsingError("Unmatched right parenthesis ) at " + IntToString(curr.startIdx)))
      else Fail(ParsingError("Expected comma or end of arguments, instead got " + toks[q].text + " at " + IntToString(toks[q].startIdx)))
  {
    assert At(toks, q) == if q == |toks| then None else Some(toks[q]);
  }

  /** One round of the declaration loop after the declaration `dec` read from `p` up to `q`, by the token at `q`. */
  lemma DeclarationsLoopRound(toks: seq<Token>, own: Scope, outer: seq<Scope>, scopeId: Option<int>, start: int,
                              decs: seq<STypeDeclaration>, p: nat, dec: STypeDeclaration, q: nat)
    requires p < |toks| && q <= |toks|
    requires ParseDeclaration(toks, AllScopes(own, outer, scopeId), scopeId, p) == Ok(Some((dec, q)))
    ensures var own' := if scopeId.Some? then own[dec.id.name := dec] else own;
      DeclarationsLoop(toks, own, outer, scopeId, start, decs, p) ==
        if q == |toks| then DeclarationsLoop(toks, own', outer, scopeId, start, decs + [dec], q)
        else if toks[q].tokenType == SEP then DeclarationsLoop(toks, own', outer, scopeId, start, decs + [dec], q + 1)
        else Fail(ParsingError("Expected comma or end of declarations, instead got " + toks[q].text + " at " + IntToString(toks[q].startIdx)))
  {
  }

  /** The declaration read by one round of the loop, and where the next round starts. */
  lemma DeclarationsLoopNext(toks: seq<Token>, own: Scope, outer: seq<Scope>, scopeId: Option<int>,
                             start: int, decs: seq<STypeDeclaration>, p: nat) returns (dec: STypeDeclaration, q1: nat)
    requires p < |toks|
    requires DeclarationsLoop(toks, own, outer, scopeId, start, decs, p).Ok?
    ensures p < q1 <= |toks|
    ensures DeclarationsLoop(toks, own, outer, scopeId, start, decs, p) ==
      DeclarationsLoop(toks, if scopeId.Some? then own[dec.id.name := dec] else own, outer, scopeId, start, decs + [dec], q1)
  {
    DeclarationsLoopStep(toks, own, outer, scopeId, start, decs, p);
    var res := ParseDeclaration(toks, AllScopes(own, outer, scopeId), scopeId, p).value.value;
    var q := res.1;
    dec := res.0;
    q1 := if q == |toks| then q else q + 1;
  }

  /**
   * The declaration loop ends only at the end of input. It returns every declaration read, after those
   * already read, and starting where the list started; with a scope id, the declarations read enter the
   * scope table in order; without one it is untouched.
   */
  lemma {:induction false} DeclarationsLoopOutcome(toks: seq<Token>, own: Scope, outer: seq<Scope>, scopeId: Option<int>,
                                                   start: int, decs: seq<STypeDeclaration>, p: nat)
    requires p <= |toks|
    requires DeclarationsLoop(toks, own, outer, scopeId, start, decs, p).Ok?
    ensures DeclarationsLoopResult(toks, own, scopeId, start, decs, DeclarationsLoop(toks, own, outer, scopeId, start, decs, p).value)
    decreases |toks| - p
  {
    if p < |toks| {
      var dec, q1 := DeclarationsLoopNext(toks, own, outer, scopeId, start, decs, p);
      var own1 := if scopeId.Some? then own[dec.id.name := dec] else own;
      DeclarationsLoopOutcome(toks, own1, outer, scopeId, start, decs + [dec], q1);
      DeclarationsLoopResultExtends(toks, own, scopeId, start, decs, dec, DeclarationsLoop(toks, own1, outer, scopeId, start, decs + [dec], q1).value);
    } else {
      DeclarationsLoopEnds(toks, own, outer, scopeId, start, decs);
    }
  }

  /** At the end of input the loop returns the declarations read, and the scope table as it stands. */
  lemma DeclarationsLoopEnds(toks: seq<Token>, own: Scope, outer: seq<Scope>, scopeId: Option<int>,
                             start: int, decs: seq<STypeDeclaration>)
    requires DeclarationsLoop(toks, own, outer, scopeId, start, decs, |toks|).Ok?
    ensures DeclarationsLoopResult(toks, own, scopeId, start, decs, DeclarationsLoop(toks, own, outer, scopeId, start, decs, |toks|).value)
  {
    assert decs[..|decs|] == decs && decs[|decs|..] == [];
    EnteredNothing(own);
  }

  lemma SplitAfterPrefix<T>(ds: seq<T>, decs: seq<T>, dec: T)
    requires |decs| + 1 <= |ds| && ds[..|decs| + 1] == decs + [dec]
    ensures ds[..|decs|] == decs && ds[|decs|..] == [dec] + ds[|decs| + 1..]
  {
    assert ds[..|decs|] == (decs + [dec])[..|decs|];
    assert ds[|decs|] == (decs + [dec])[|decs|];
  }

  // ---------------------------------------------------------------------------------------------
  // Names and calls

  /**
   * `lookupInScopeAndParents`: a name the own scope declares takes that declaration's bound, strictness and
   * scope id (and its data type unless one is given); a name it lacks is resolved in the outer scopes.
   */
  lemma ReferencesResolve(own: Scope, outer: seq<Scope>, t: Token, dataType: Option<DataType>)
    ensures var id := Reference([own] + outer, t, dataType);
      id.name == t.text && id.startIdx == t.startIdx && id.endIdx == t.endIdx &&
      (t.text in own ==>
        id.upperBound == own[t.text].id.upperBound && id.isStrictBound == own[t.text].id.isStrictBound &&
        id.scopeId == own[t.text].id.scopeId &&
        id.dataType == if dataType.Some? then dataType else own[t.text].id.dataType) &&
      (t.text !in own ==> id == Reference(outer, t, dataType))
  {
    if t.text in own {
      InnerShadowsOuter(own, outer, t.text);
    } else {
      MissingFallsThrough(own, outer, t.text);
    }
  }

  /** A name declared nowhere keeps only the data type given to it. */
  lemma UnresolvedReference(scopes: seq<Scope>, t: Token, dataType: Option<DataType>)
    requires forall i :: 0 <= i < |scopes| ==> t.text !in scopes[i]
    ensures Reference(scopes, t, dataType) == Identifier(t.text, dataType, t.startIdx, t.endIdx, None, false, None)
  {
  }

  /** An identifier followed by "(" starts a call of that name; any other identifier is a reference. */
  lemma IdentifiersAndCalls(toks: seq<Token>, scopes: seq<Scope>, p: nat)
    requires p < |toks| && toks[p].tokenType == IDENTIFIER
    ensures !Is(At(toks, p + 1), LPARENS) ==>
      ParseDimOrShape(toks, scopes, p) == Ok(Some((IdentifierNode(Reference(scopes, toks[p], None)), p + 1)))
    ensures Is(At(toks, p + 1), LPARENS) && ParseDimOrShape(toks, scopes, p).Ok? ==>
      var (n, q) := ParseDimOrShape(toks, scopes, p).value.value;
      n.SFunctionCall? && n.fn == FunctionIdentifier(toks[p].text, toks[p].startIdx, toks[p].endIdx) &&
      n.dataType.None? && n.startIdx == toks[p].startIdx && n.endIdx == n.arguments.endIdx &&
      ParseArgumentList(toks, scopes, p + 1) == Ok((Some(n.arguments), q))
  {
  }

  /** A keyword `Shape` or `Dim` is an identifier of that data type, resolved like any name. */
  lemma Keywords(toks: seq<Token>, scopes: seq<Scope>, p: nat)
    requires p < |toks|
    ensures toks[p].tokenType == TokenType.SHAPE ==>
      ParseDimOrShape(toks, scopes, p) == Ok(Some((IdentifierNode(Reference(scopes, toks[p], Some(DataType.SHAPE))), p + 1)))
    ensures toks[p].tokenType == TokenType.DIM ==>
      ParseDimOrShape(toks, scopes, p) == Ok(Some((IdentifierNode(Reference(scopes, toks[p], Some(DataType.DIM))), p + 1)))
    ensures Reference(scopes, toks[p], Some(DataType.SHAPE)).dataType == Some(DataType.SHAPE)
  {
  }

  // ---------------------------------------------------------------------------------------------
  // Argument lists

  /** After an argument, only ",", ")" (closing a call) or the end of input may follow. */
  lemma ArgumentSeparators(toks: seq<Token>, scopes: seq<Scope>, withParens: bool, start: int, curr: Token,
                           args: seq<STypeNode>, p: nat)
    requires p <= |toks| && curr.tokenType != RPARENS
    requires var r := ParseDimOrShape(toks, scopes, p); r.Ok? && r.value.Some?
    ensures var q := ParseDimOrShape(toks, scopes, p).value.value.1;
      var r := ArgumentsLoop(toks, scopes, withParens, start, Some(curr), args, p);
      (q == |toks| && withParens ==> r == Fail(ParsingError(UnmatchedLeftParenthesis(start)))) &&
      (q < |toks| && toks[q].tokenType == RPARENS && !withParens ==>
         r == Fail(ParsingError("Unmatched right parenthesis ) at " + IntToString(curr.startIdx)))) &&
      (q < |toks| && toks[q].tokenType != RPARENS && toks[q].tokenType != SEP ==>
         r == Fail(ParsingError("Expected comma or end of arguments, instead got " + toks[q].text + " at " + IntToString(toks[q].startIdx))))
  {
  }

  /** Where the loop's `curr` is: the token under the cursor, or the one just consumed. */
  ghost predicate CurrBehind(toks: seq<Token>, curr: Option<Token>, p: nat)
  {
    curr == At(toks, p) || (0 < p <= |toks| && curr == Some(toks[p - 1]))
  }

  /**
   * A list opened by "(" that parses ends at a ")" token: the one just before the cursor, or (after a
   * trailing ",") the one under it. Every argument read before stays in the list, in order.
   */
  lemma {:induction false} ParenthesisedListsClose(toks: seq<Token>, scopes: seq<Scope>, start: int, curr: Option<Token>,
                                                   args: seq<STypeNode>, p: nat)
    requires p <= |toks| && CurrBehind(toks, curr, p)
    requires ArgumentsLoop(toks, scopes, true, start, curr, args, p).Ok?
    ensures var (list, q) := ArgumentsLoop(toks, scopes, true, start, curr, args, p).value;
      list.value.startIdx == start && |args| <= |list.value.arguments| && list.value.arguments[..|args|] == args &&
      ((0 < q && toks[q - 1].tokenType == RPARENS && list.value.endIdx == toks[q - 1].endIdx) ||
       (q < |toks| && toks[q].tokenType == RPARENS && list.value.endIdx == toks[q].endIdx))
    decreases |toks| - p
  {
    if curr.Some? && curr.value.tokenType != RPARENS {
      var (arg, q) := ParseDimOrShape(toks, scopes, p).value.value;
      var next := At(toks, q);
      var curr1 := if next.value.tokenType == SEP then At(toks, q + 1) else next;
      assert ArgumentsLoop(toks, scopes, true, start, curr, args, p) ==
             ArgumentsLoop(toks, scopes, true, start, curr1, args + [arg], q + 1);
      ParenthesisedListsClose(toks, scopes, start, curr1, args + [arg], q + 1);
      var list := ArgumentsLoop(toks, scopes, true, start, curr1, args + [arg], q + 1).value.0.value;
      assert list.arguments[..|args| + 1] == args + [arg];
      assert list.arguments[..|args|] == (args + [arg])[..|args|] == args;
    }
  }

  /** A call's argument list always ends at a ")" token. */
  lemma CallsClose(toks: seq<Token>, scopes: seq<Scope>, p: nat)
    requires p + 1 < |toks| && toks[p].tokenType == IDENTIFIER && toks[p + 1].tokenType == LPARENS
    requires ParseDimOrShape(toks, scopes, p).Ok?
    ensures var (n, q) := ParseDimOrShape(toks, scopes, p).value.value;
      n.SFunctionCall? && n.arguments.startIdx == toks[p + 1].startIdx &&
      ((toks[q - 1].tokenType == RPARENS && n.endIdx == toks[q - 1].endIdx) ||
       (q < |toks| && toks[q].tokenType == RPARENS && n.endIdx == toks[q].endIdx))
  {
    assert ParseArgumentList(toks, scopes, p + 1) == ArgumentsLoop(toks, scopes, true, toks[p + 1].startIdx, Some(toks[p + 1]), [], p + 2);
    ParenthesisedListsClose(toks, scopes, toks[p + 1].startIdx, Some(toks[p + 1]), [], p + 2);
  }

  // ---------------------------------------------------------------------------------------------
  // Shape literals

  /** "[]" is the empty shape literal. */
  lemma EmptyShapeLiteral(toks: seq<Token>, scopes: seq<Scope>, p: nat)
    requires p + 1 < |toks| && toks[p].tokenType == LSQUARE && toks[p + 1].tokenType == RSQUARE
    ensures ParseDimOrShape(toks, scopes, p) == Ok(Some((ShapeLiteral([], toks[p].startIdx, toks[p + 1].endIdx), p + 2)))
  {
  }

  /** After a dim, only "," or "]" may follow; a shape-typed element is refused. */
  lemma DimSeparators(toks: seq<Token>, scopes: seq<Scope>, start: int, curr: Option<Token>, dims: seq<STypeNode>,
                      isClosed: bool, p: nat)
    requires p <= |toks| && !Is(curr, RSQUARE)
    requires var r := ParseDimOrShape(toks, scopes, p); r.Ok? && r.value.Some?
    ensures var (dim, q) := ParseDimOrShape(toks, scopes, p).value.value;
      var r := DimsLoop(toks, scopes, start, curr, dims, isClosed, p);
      (DataTypeOf(dim) == Some(DataType.SHAPE) ==> r == Fail(ParsingError("Invalid argument for dimensions at " + IntToString(Start(dim))))) &&
      (DataTypeOf(dim) != Some(DataType.SHAPE) && q == |toks| ==> r == Fail(ParsingError("Unmatched left bracket at " + IntToString(start)))) &&
      (DataTypeOf(dim) != Some(DataType.SHAPE) && q < |toks| && toks[q].tokenType != SEP && toks[q].tokenType != RSQUARE ==>
         r == Fail(ParsingError("Expected comma or ], instead got " + toks[q].text + " at " + IntToString(toks[q].startIdx))))
  {
  }

  /** The loop state of `parseShapeLiteral`: a closed literal has just consumed its "]". */
  ghost predicate DimsState(toks: seq<Token>, curr: Option<Token>, dims: seq<STypeNode>, isClosed: bool, p: nat)
  {
    (isClosed ==> 0 < p <= |toks| && curr == Some(toks[p - 1]) && Is(curr, RSQUARE)) &&
    forall i :: 0 <= i < |dims| ==> DataTypeOf(dims[i]) != Some(DataType.SHAPE)
  }

  /**
   * A literal that parses holds the dims read, in order, none shape-typed, and ends at the "]" just before
   * the cursor.
   */
  lemma {:induction false} DimsLoopOutcome(toks: seq<Token>, scopes: seq<Scope>, start: int, curr: Option<Token>,
                                           dims: seq<STypeNode>, isClosed: bool, p: nat)
    requires p <= |toks| && DimsState(toks, curr, dims, isClosed, p)
    requires DimsLoop(toks, scopes, start, curr, dims, isClosed, p).Ok?
    ensures var (n, q) := DimsLoop(toks, scopes, start, curr, dims, isClosed, p).value.value;
      n.ShapeLiteral? && n.startIdx == start && |dims| <= |n.dims| && n.dims[..|dims|] == dims &&
      (forall i :: 0 <= i < |n.dims| ==> DataTypeOf(n.dims[i]) != Some(DataType.SHAPE)) &&
      0 < q && toks[q - 1].tokenType == RSQUARE && n.endIdx == toks[q - 1].endIdx
    decreases |toks| - p
  {
    if !Is(curr, RSQUARE) {
      var (dim, q) := ParseDimOrShape(toks, scopes, p).value.value;
      var next := At(toks, q);
      var closes := next.value.tokenType == RSQUARE;
      var curr1 := if closes then next else At(toks, q + 1);
      assert DimsLoop(toks, scopes, start, curr, dims, isClosed, p) ==
             DimsLoop(toks, scopes, start, curr1, dims + [dim], closes || isClosed, q + 1);
      assert forall i :: 0 <= i < |dims + [dim]| ==> (dims + [dim])[i] == if i < |dims| then dims[i] else dim;
      DimsLoopOutcome(toks, scopes, start, curr1, dims + [dim], closes || isClosed, q + 1);
      var n := DimsLoop(toks, scopes, start, curr1, dims + [dim], closes || isClosed, q + 1).value.value.0;
      assert n.dims[..|dims| + 1] == dims + [dim];
      assert n.dims[..|dims|] == (dims + [dim])[..|dims|] == dims;
    }
  }

  /** A shape literal spans "[" to "]" and none of its elements is shape-typed. */
  lemma ShapeLiteralOutcome(toks: seq<Token>, scopes: seq<Scope>, p: nat)
    requires p < |toks| && toks[p].tokenType == LSQUARE
    requires ParseDimOrShape(toks, scopes, p).Ok?
    ensures var (n, q) := ParseDimOrShape(toks, scopes, p).value.value;
      n.ShapeLiteral? && n.startIdx == toks[p].startIdx && toks[q - 1].tokenType == RSQUARE && n.endIdx == toks[q - 1].endIdx &&
      forall i :: 0 <= i < |n.dims| ==> DataTypeOf(n.dims[i]) != Some(DataType.SHAPE)
  {
    if !Is(At(toks, p + 1), RSQUARE) {
      DimsLoopOutcome(toks, scopes, toks[p].startIdx, Some(toks[p]), [], false, p + 1);
    }
  }

  /** Every node starts where its first token does. */
  lemma NodesStartAtTheirFirstToken(toks: seq<Token>, scopes: seq<Scope>, p: nat)
    requires p <= |toks|
    requires ParseDimOrShape(toks, scopes, p).Ok? && ParseDimOrShape(toks, scopes, p).value.Some?
    ensures Start(ParseDimOrShape(toks, scopes, p).value.value.0) == toks[p].startIdx
  {
    if toks[p].tokenType == LSQUARE {
      ShapeLiteralOutcome(toks, scopes, p);
    }
  }
}
