/**
 * Parses of small token lists, after the parser's unit tests, with the tokens' texts and offsets left
 * free: only their types are fixed.
 */
module ParsingExamples {
  import opened Wrappers
  import opened Strings
  import opened Lexing
  import opened SNodes
  import opened DeclarationInfos
  import opened ParsingSpec

  /**
   * `B : Shape, M <: B` with a scope id: `B` enters the scope before `M` is read, so `M`'s bound resolves
   * to `B` with `B`'s data type, bound and scope id, and both end up in the scope table.
   */
  lemma {:induction false} LaterDeclarationsResolveEarlier(b: Token, op1: Token, bound: Token, sep: Token, m: Token, op2: Token, ref: Token, s: int)
    requires b.tokenType == IDENTIFIER && op1.tokenType == SUBTYPE && bound.tokenType == TokenType.SHAPE
    requires sep.tokenType == SEP && m.tokenType == IDENTIFIER && op2.tokenType == STRICTSUBTYPE
    requires ref.tokenType == IDENTIFIER && ref.text == b.text
    ensures var boundNode := IdentifierNode(Identifier(bound.text, Some(DataType.SHAPE), bound.startIdx, bound.endIdx, None, false, None));
      var bDec := STypeDeclaration(Identifier(b.text, Some(DataType.SHAPE), b.startIdx, b.endIdx, Some(boundNode), false, Some(s)),
                                   b.startIdx, bound.endIdx);
      var mBound := IdentifierNode(Identifier(b.text, Some(DataType.SHAPE), ref.startIdx, ref.endIdx, Some(boundNode), false, Some(s)));
      var mDec := STypeDeclaration(Identifier(m.text, Some(DataType.SHAPE), m.startIdx, m.endIdx, Some(mBound), true, Some(s)),
                                   m.startIdx, ref.endIdx);
      Parse([b, op1, bound, sep, m, op2, ref], DECLARATION, map[], [], Some(s), 0) ==
        Ok((Declarations(DeclarationList([bDec, mDec], b.startIdx, ref.endIdx)), map[b.text := bDec][m.text := mDec], 7))
  {
    var toks := [b, op1, bound, sep, m, op2, ref];
    var boundNode := IdentifierNode(Identifier(bound.text, Some(DataType.SHAPE), bound.startIdx, bound.endIdx, None, false, None));
    var bDec := STypeDeclaration(Identifier(b.text, Some(DataType.SHAPE), b.startIdx, b.endIdx, Some(boundNode), false, Some(s)),
                                 b.startIdx, bound.endIdx);
    var mBound := IdentifierNode(Identifier(b.text, Some(DataType.SHAPE), ref.startIdx, ref.endIdx, Some(boundNode), false, Some(s)));
    var mDec := STypeDeclaration(Identifier(m.text, Some(DataType.SHAPE), m.startIdx, m.endIdx, Some(mBound), true, Some(s)),
                                 m.startIdx, ref.endIdx);
    var own1: Scope := map[b.text := bDec];
    assert AllScopes(map[], [], Some(s)) == [map[]];
    assert ParseDimOrShape(toks, [map[]], 2) == Ok(Some((boundNode, 3)));
    assert ParseDeclaration(toks, [map[]], Some(s), 0) == Ok(Some((bDec, 3)));
    assert [] + [bDec] == [bDec];
    assert map[][b.text := bDec] == own1;
    assert DeclarationsLoop(toks, map[], [], Some(s), b.startIdx, [], 0) ==
           DeclarationsLoop(toks, own1, [], Some(s), b.startIdx, [bDec], 4);
    assert LookupIn([own1], ref.text) == Some(bDec);
    assert ParseDimOrShape(toks, [own1], 6) == Ok(Some((mBound, 7)));
    assert ParseDeclaration(toks, [own1], Some(s), 4) == Ok(Some((mDec, 7)));
    assert AllScopes(own1, [], Some(s)) == [own1];
    assert DeclarationsLoop(toks, own1, [], Some(s), b.startIdx, [bDec], 4) ==
           DeclarationsLoop(toks, own1[m.text := mDec], [], Some(s), b.startIdx, [bDec] + [mDec], 7);
    assert [bDec] + [mDec] == [bDec, mDec];
  }

  /** `A)` as arguments: a ")" that no call opened. */
  lemma {:induction false} UnmatchedRightParenthesis(a: Token, r: Token, own: Scope)
    requires a.tokenType == IDENTIFIER && r.tokenType == RPARENS
    ensures Parse([a, r], ARGUMENT, own, [], None, 0) == Fail(ParsingError("Unmatched right parenthesis ) at " + IntToString(a.startIdx)))
  {
    var toks := [a, r];
    var msg := ParsingError("Unmatched right parenthesis ) at " + IntToString(a.startIdx));
    assert ParseDimOrShape(toks, [], 0) == Ok(Some((IdentifierNode(Reference([], a, None)), 1)));
    assert ArgumentsLoop(toks, [], false, a.startIdx, Some(a), [], 0) == Fail(msg);
    assert ParseArgumentList(toks, [], 0) == Fail(msg);
    assert AllScopes(own, [], None) == [];
  }

  /** `f(A` as arguments: the call's "(" is never closed. */
  lemma {:induction false} UnclosedCall(f: Token, lp: Token, a: Token, own: Scope)
    requires f.tokenType == IDENTIFIER && lp.tokenType == LPARENS && a.tokenType == IDENTIFIER
    ensures Parse([f, lp, a], ARGUMENT, own, [], None, 0) == Fail(ParsingError(UnmatchedLeftParenthesis(lp.startIdx)))
  {
    var toks := [f, lp, a];
    var msg := ParsingError(UnmatchedLeftParenthesis(lp.startIdx));
    assert ParseDimOrShape(toks, [], 2) == Ok(Some((IdentifierNode(Reference([], a, None)), 3)));
    assert ArgumentsLoop(toks, [], true, lp.startIdx, Some(lp), [], 2) == Fail(msg);
    assert ParseArgumentList(toks, [], 1) == Fail(msg);
    assert ParseShapeFunctionCall(toks, [], f, 1) == Fail(msg);
    assert ParseDimOrShape(toks, [], 0) == Fail(msg);
    assert ArgumentsLoop(toks, [], false, f.startIdx, Some(f), [], 0) == Fail(msg);
    assert ParseArgumentList(toks, [], 0) == Fail(msg);
    assert AllScopes(own, [], None) == [];
  }

  /**
   * `f(A,` as arguments: after the "," the loop meets the end of input and stops there. As written, the
   * loop's exit then returns the list `(A` as if it were closed; with the missing check it is the same
   * unmatched "(" as `f(A`.
   */
  lemma {:induction false} UnclosedCallAfterComma(f: Token, lp: Token, a: Token, sep: Token, own: Scope)
    requires f.tokenType == IDENTIFIER && lp.tokenType == LPARENS && a.tokenType == IDENTIFIER && sep.tokenType == SEP
    ensures var toks := [f, lp, a, sep];
      var argA := IdentifierNode(Reference([], a, None));
      ArgumentsLoop(toks, [], true, lp.startIdx, Some(lp), [], 2) == CloseArguments(true, lp.startIdx, None, [argA], 4) &&
      CloseArgumentsAsWritten(true, lp.startIdx, None, [argA], 4) == Ok((Some(ArgumentList([argA], lp.startIdx, a.endIdx)), 4)) &&
      Parse(toks, ARGUMENT, own, [], None, 0) == Fail(ParsingError(UnmatchedLeftParenthesis(lp.startIdx)))
  {
    var toks := [f, lp, a, sep];
    var argA := IdentifierNode(Reference([], a, None));
    var msg := ParsingError(UnmatchedLeftParenthesis(lp.startIdx));
    assert ParseDimOrShape(toks, [], 2) == Ok(Some((argA, 3)));
    assert [] + [argA] == [argA];
    assert ArgumentsLoop(toks, [], true, lp.startIdx, Some(lp), [], 2) == ArgumentsLoop(toks, [], true, lp.startIdx, None, [argA], 4);
    assert ArgumentsLoop(toks, [], true, lp.startIdx, None, [argA], 4) == CloseArguments(true, lp.startIdx, None, [argA], 4);
    assert CloseArguments(true, lp.startIdx, None, [argA], 4) == Fail(msg);
    assert ParseArgumentList(toks, [], 1) == Fail(msg);
    assert ParseShapeFunctionCall(toks, [], f, 1) == Fail(msg);
    assert ParseDimOrShape(toks, [], 0) == Fail(msg);
    assert ArgumentsLoop(toks, [], false, f.startIdx, Some(f), [], 0) == Fail(msg);
    assert ParseArgumentList(toks, [], 0) == Fail(msg);
    assert AllScopes(own, [], None) == [];
  }

  /** `[Shape]`: a shape-typed element in a shape literal. */
  lemma {:induction false} ShapeInsideShapeLiteral(ls: Token, w: Token, rs: Token)
    requires ls.tokenType == LSQUARE && w.tokenType == TokenType.SHAPE && rs.tokenType == RSQUARE
    ensures ParseDimOrShape([ls, w, rs], [], 0) == Fail(ParsingError("Invalid argument for dimensions at " + IntToString(w.startIdx)))
  {
    var toks := [ls, w, rs];
    var msg := ParsingError("Invalid argument for dimensions at " + IntToString(w.startIdx));
    assert ParseDimOrShape(toks, [], 1) == Ok(Some((IdentifierNode(Reference([], w, Some(DataType.SHAPE))), 2)));
    assert DimsLoop(toks, [], ls.startIdx, Some(ls), [], false, 1) == Fail(msg);
    assert ParseShapeLiteral(toks, [], 0) == Fail(msg);
  }

  /** `X : [10, <:` (after the unclosed-literal test): a dim followed by neither "," nor "]". */
  lemma {:induction false} UnclosedShapeLiteral(x: Token, op: Token, ls: Token, ten: Token, st: Token)
    requires x.tokenType == IDENTIFIER && op.tokenType == SUBTYPE && ls.tokenType == LSQUARE
    requires ten.tokenType == INTLITERAL && ten.text == "10" && st.tokenType == STRICTSUBTYPE
    ensures Parse([x, op, ls, ten, st], DECLARATION, map[], [], None, 0) ==
      Fail(ParsingError("Expected comma or ], instead got " + st.text + " at " + IntToString(st.startIdx)))
  {
    var toks := [x, op, ls, ten, st];
    var msg := ParsingError("Expected comma or ], instead got " + st.text + " at " + IntToString(st.startIdx));
    assert AllDigits("10");
    assert ParseInt(ten.text).Ok?;
    assert ParseDimOrShape(toks, [], 3).Ok? && ParseDimOrShape(toks, [], 3).value.value.1 == 4;
    assert DimsLoop(toks, [], ls.startIdx, Some(ls), [], false, 3) == Fail(msg);
    assert ParseShapeLiteral(toks, [], 2) == Fail(msg);
    assert ParseDimOrShape(toks, [], 2) == Fail(msg);
    assert ParseDeclaration(toks, [], None, 0) == Fail(msg);
    assert AllScopes(map[], [], None) == [];
    assert DeclarationsLoop(toks, map[], [], None, x.startIdx, [], 0) == Fail(msg);
  }

  /** `B : Shape M <: Dim` (the missing-separator test). */
  lemma {:induction false} MissingSeparator(b: Token, op: Token, w: Token, m: Token)
    requires b.tokenType == IDENTIFIER && op.tokenType == SUBTYPE && w.tokenType == TokenType.SHAPE && m.tokenType == IDENTIFIER
    ensures Parse([b, op, w, m], DECLARATION, map[], [], None, 0) ==
      Fail(ParsingError("Expected comma or end of declarations, instead got " + m.text + " at " + IntToString(m.startIdx)))
  {
    var toks := [b, op, w, m];
    assert ParseDimOrShape(toks, [], 2).Ok? && ParseDimOrShape(toks, [], 2).value.value.1 == 3;
    assert ParseDeclaration(toks, [], None, 0).Ok? && ParseDeclaration(toks, [], None, 0).value.value.1 == 3;
    assert AllScopes(map[], [], None) == [];
  }

  /** `B : Shape, M, C` (the missing-bound test): the token after `M` is not a subtype operator. */
  lemma {:induction false} MissingBound(b: Token, op: Token, w: Token, sep: Token, m: Token, sep2: Token, c: Token)
    requires b.tokenType == IDENTIFIER && op.tokenType == SUBTYPE && w.tokenType == TokenType.SHAPE && sep.tokenType == SEP
    requires m.tokenType == IDENTIFIER && sep2.tokenType == SEP && c.tokenType == IDENTIFIER
    ensures Parse([b, op, w, sep, m, sep2, c], DECLARATION, map[], [], None, 0) ==
      Fail(ParsingError("Expected parameter declaration with bound, got " + sep2.text))
  {
    var toks := [b, op, w, sep, m, sep2, c];
    var msg := ParsingError("Expected parameter declaration with bound, got " + sep2.text);
    assert ParseDimOrShape(toks, [], 2).Ok? && ParseDimOrShape(toks, [], 2).value.value.1 == 3;
    assert ParseDeclaration(toks, [], None, 0).Ok? && ParseDeclaration(toks, [], None, 0).value.value.1 == 3;
    assert AllScopes(map[], [], None) == [];
    assert ParseDeclaration(toks, [], None, 4) == Fail(msg);
    var bDec := ParseDeclaration(toks, [], None, 0).value.value.0;
    assert [] + [bDec] == [bDec];
    assert DeclarationsLoop(toks, map[], [], None, b.startIdx, [], 0) == DeclarationsLoop(toks, map[], [], None, b.startIdx, [bDec], 4);
    assert DeclarationsLoop(toks, map[], [], None, b.startIdx, [bDec], 4) == Fail(msg);
  }
}
