/**
 * What the recursive-descent parser computes, as functions of the token list and the cursor position:
 * one function per parse routine, each `while` loop as a tail-recursive loop function whose parameters
 * are the loop's variables. A routine's result is the node it builds (`None` for Kotlin's null) with the
 * cursor position after it, or the exception it throws. The parser class is proved to compute these.
 */
module ParsingSpec {
  import opened Wrappers
  import opened Strings
  import opened Lexing
  import opened SNodes
  import opened DeclarationInfos

  /** `peek` at position `p`. */
  function At(toks: seq<Token>, p: nat): (t: Option<Token>)
    ensures t.Some? <==> p < |toks|
    ensures t.Some? ==> t.value == toks[p]
  {
    if p < |toks| then Some(toks[p]) else None
  }

  /** `t?.tokenType == tt`. */
  predicate Is(t: Option<Token>, tt: TokenType)
  {
    t.Some? && t.value.tokenType == tt
  }

  /** The scope tables a parser searches: its own, when it has a scope id, before the enclosing ones. */
  function AllScopes(own: Scope, outer: seq<Scope>, scopeId: Option<int>): seq<Scope>
  {
    if scopeId.Some? then [own] + outer else outer
  }

  function UnmatchedLeftParenthesis(start: int): string
  {
    "Unmatched left parenthesis ( at " + IntToString(start)
  }

  // ---------------------------------------------------------------------------------------------
  // Node construction

  /** `String.toInt()` (`Integer.parseInt`): an optional sign and at least one decimal digit, else a NumberFormatException. */
  function ParseInt(s: string): Result<int>
  {
    if s != [] && AllDigits(s) then Ok(DigitsValue(s))
    else if |s| >= 2 && s[0] == '-' && AllDigits(s[1..]) then Ok(0 - DigitsValue(s[1..]) as int)
    else if |s| >= 2 && s[0] == '+' && AllDigits(s[1..]) then Ok(DigitsValue(s[1..]))
    else Fail(Thrown("NumberFormatException", "For input string: \"" + s + "\""))
  }

  /** `makeIdentifier` for a new declaration: the bare name, with nothing resolved yet. */
  function NewIdentifier(t: Token): Identifier
  {
    Identifier(t.text, None, t.startIdx, t.endIdx, None, false, None)
  }

  /**
   * `makeIdentifier` for a reference: the bound, strictness and scope of the declaration the name resolves
   * to, and the given data type or else the declaration's.
   */
  function Reference(scopes: seq<Scope>, t: Token, dataType: Option<DataType>): Identifier
  {
    match LookupIn(scopes, t.text)
    case None => Identifier(t.text, dataType, t.startIdx, t.endIdx, None, false, None)
    case Some(dec) =>
      Identifier(t.text, if dataType.Some? then dataType else dec.id.dataType, t.startIdx, t.endIdx,
                 dec.id.upperBound, dec.id.isStrictBound, dec.id.scopeId)
  }

  /** `retypeIdentifier`. */
  function Retype(id: Identifier, newDataType: Option<DataType>, upperBound: Option<STypeNode>, isStrictBound: bool,
                  newScopeId: Option<int>): Identifier
  {
    Identifier(id.name, newDataType, id.startIdx, id.endIdx, if upperBound.Some? then upperBound else id.upperBound,
               isStrictBound, newScopeId)
  }

  // ---------------------------------------------------------------------------------------------
  // Arguments

  /** `parseDimOrShape`. */
  function ParseDimOrShape(toks: seq<Token>, scopes: seq<Scope>, p: nat): (r: Result<Option<(STypeNode, nat)>>)
    requires p <= |toks|
    ensures r.Ok? ==> (r.value.None? <==> p == |toks|)
    ensures r.Ok? && r.value.Some? ==> p < r.value.value.1 <= |toks|
    decreases |toks| - p, 1
  {
    if p == |toks| then Ok(None)
    else
      var curr := toks[p];
      match curr.tokenType
      case SHAPE => Ok(Some((IdentifierNode(Reference(scopes, curr, Some(DataType.SHAPE))), p + 1)))
      case DIM => Ok(Some((IdentifierNode(Reference(scopes, curr, Some(DataType.DIM))), p + 1)))
      case IDENTIFIER =>
        if Is(At(toks, p + 1), LPARENS) then
          var call :- ParseShapeFunctionCall(toks, scopes, curr, p + 1);
          Ok(Some(call))
        else Ok(Some((IdentifierNode(Reference(scopes, curr, None)), p + 1)))
      case INTLITERAL =>
        var v :- ParseInt(curr.text);
        Ok(Some((IntLiteral(v, curr.startIdx, curr.endIdx), p + 1)))
      case WILDCARD => Ok(Some((Wildcard(None, curr.startIdx, curr.endIdx), p + 1)))
      case LSQUARE => ParseShapeLiteral(toks, scopes, p)
      case _ => Fail(ParsingError("Expected shape at " + IntToString(curr.startIdx) + ", instead got " + curr.text))
  }

  /** `parseShapeFunctionCall`, entered at the "(" after the function's name `id`. */
  function ParseShapeFunctionCall(toks: seq<Token>, scopes: seq<Scope>, id: Token, p: nat): (r: Result<(STypeNode, nat)>)
    requires p <= |toks|
    ensures r.Ok? ==> p <= r.value.1 <= |toks|
    decreases |toks| - p, 4
  {
    var res :- ParseArgumentList(toks, scopes, p);
    var (args, q) := res;
    if args.None? then Fail(ParsingError("Attempted to parse shape function call but could not find invocation."))
    else Ok((SFunctionCall(FunctionIdentifier(id.text, id.startIdx, id.endIdx), args.value, None, id.startIdx, args.value.endIdx), q))
  }

  /** `parseArgumentList`: a list opened by "(" is one a call owns; otherwise it runs to the end of input. */
  function ParseArgumentList(toks: seq<Token>, scopes: seq<Scope>, p: nat): (r: Result<(Option<ArgumentList>, nat)>)
    requires p <= |toks|
    ensures r.Ok? ==> p <= r.value.1 <= |toks|
    ensures r.Ok? ==> (r.value.0.None? <==> p == |toks|)
    decreases |toks| - p, 3
  {
    if p == |toks| then Ok((None, p))
    else
      var curr := toks[p];
      var withParens := curr.tokenType == LPARENS;
      ArgumentsLoop(toks, scopes, withParens, curr.startIdx, Some(curr), [], if withParens then p + 1 else p)
  }

  /** The loop of `parseArgumentList` over `curr` and the arguments read so far, at position `p`. */
  function ArgumentsLoop(toks: seq<Token>, scopes: seq<Scope>, withParens: bool, start: int, curr: Option<Token>,
                         args: seq<STypeNode>, p: nat): (r: Result<(Option<ArgumentList>, nat)>)
    requires p <= |toks|
    ensures r.Ok? ==> r.value.0.Some? && p <= r.value.1 <= |toks|
    decreases |toks| - p, 2
  {
    if curr.Some? && curr.value.tokenType != RPARENS then
      var res :- ParseDimOrShape(toks, scopes, p);
      if res.None? then Fail(ParsingError("Could not process argument " + curr.value.text + " at " + IntToString(curr.value.startIdx)))
      else
        var (arg, q) := res.value;
        var next := At(toks, q);
        if next.None? then
          if withParens then Fail(ParsingError(UnmatchedLeftParenthesis(start)))
          else ArgumentsLoop(toks, scopes, withParens, start, None, args + [arg], q)
        else
          match next.value.tokenType
          case SEP => ArgumentsLoop(toks, scopes, withParens, start, At(toks, q + 1), args + [arg], q + 1)
          case RPARENS =>
            if withParens then ArgumentsLoop(toks, scopes, withParens, start, next, args + [arg], q + 1)
            else Fail(ParsingError("Unmatched right parenthesis ) at " + IntToString(curr.value.startIdx)))
          case _ =>
            Fail(ParsingError("Expected comma or end of arguments, instead got " + next.value.text + " at " + IntToString(next.value.startIdx)))
    else CloseArguments(withParens, start, curr, args, p)
  }

  /**
   * What `parseArgumentList` returns once its loop ends, as written: a list closed by ")" ends there, any
   * other ends with its last argument (or one past its start when empty).
   */
  function CloseArgumentsAsWritten(withParens: bool, start: int, curr: Option<Token>, args: seq<STypeNode>, p: nat)
    : (r: Result<(Option<ArgumentList>, nat)>)
    ensures r.Ok? && r.value.0.Some? && r.value.0.value.arguments == args && r.value.1 == p
  {
    if withParens && Is(curr, RPARENS) then Ok((Some(ArgumentList(args, start, curr.value.endIdx)), p))
    else Ok((Some(ArgumentList(args, start, if args == [] then start + 1 else End(args[|args| - 1]))), p))
  }

  /**
   * The loop's exit with the missing check: a list opened by "(" whose loop ended at the end of input (after
   * a trailing ",") is unmatched, as it is when the input ends right after an argument.
   */
  function CloseArguments(withParens: bool, start: int, curr: Option<Token>, args: seq<STypeNode>, p: nat)
    : (r: Result<(Option<ArgumentList>, nat)>)
    ensures r.Ok? ==> r.value.0.Some? && r.value.1 == p
  {
    if withParens && curr.None? then Fail(ParsingError(UnmatchedLeftParenthesis(start)))
    else CloseArgumentsAsWritten(withParens, start, curr, args, p)
  }

  // ---------------------------------------------------------------------------------------------
  // Shape literals

  /** `parseShapeLiteral`, entered at the "[" (the token is consumed whatever it is). */
  function ParseShapeLiteral(toks: seq<Token>, scopes: seq<Scope>, p: nat): (r: Result<Option<(STypeNode, nat)>>)
    requires p <= |toks|
    ensures r.Ok? && r.value.Some? ==> p < r.value.value.1 <= |toks|
    decreases |toks| - p, 0
  {
    if p == |toks| then Ok(None)
    else
      var curr := toks[p];
      if curr.tokenType != LSQUARE then Fail(ParsingError("Expected shape literal beginning with ["))
      else if Is(At(toks, p + 1), RSQUARE) then Ok(Some((ShapeLiteral([], curr.startIdx, toks[p + 1].endIdx), p + 2)))
      else DimsLoop(toks, scopes, curr.startIdx, Some(curr), [], false, p + 1)
  }

  /** The loop of `parseShapeLiteral` over `curr`, the dims read so far and `isClosed`, at position `p`. */
  function DimsLoop(toks: seq<Token>, scopes: seq<Scope>, start: int, curr: Option<Token>, dims: seq<STypeNode>,
                    isClosed: bool, p: nat): (r: Result<Option<(STypeNode, nat)>>)
    requires p <= |toks|
    ensures r.Ok? ==> r.value.Some? && p <= r.value.value.1 <= |toks|
    decreases |toks| - p, 2
  {
    if !Is(curr, RSQUARE) then
      var res :- ParseDimOrShape(toks, scopes, p);
      if res.None? then
        Fail(ParsingError("Could not process argument at " + if curr.Some? then IntToString(curr.value.startIdx) else "null"))
      else
        var (dim, q) := res.value;
        if DataTypeOf(dim) == Some(DataType.SHAPE) then Fail(ParsingError("Invalid argument for dimensions at " + IntToString(Start(dim))))
        else
          var next := At(toks, q);
          if next.None? then Fail(ParsingError("Unmatched left bracket at " + IntToString(start)))
          else
            match next.value.tokenType
            case SEP => DimsLoop(toks, scopes, start, At(toks, q + 1), dims + [dim], isClosed, q + 1)
            case RSQUARE => DimsLoop(toks, scopes, start, next, dims + [dim], true, q + 1)
            case _ =>
              Fail(ParsingError("Expected comma or ], instead got " + next.value.text + " at " + IntToString(next.value.startIdx)))
    else if !isClosed then Fail(ParsingError("Unmatched left bracket at " + IntToString(start)))
    else Ok(Some((ShapeLiteral(dims, start, curr.value.endIdx), p)))
  }

  // ---------------------------------------------------------------------------------------------
  // Declarations

  /** `parseIdentifier(isNewDeclaration = true)`. */
  function ParseIdentifier(toks: seq<Token>, p: nat): (r: Result<Option<Identifier>>)
    requires p <= |toks|
  {
    if p == |toks| then Ok(None)
    else if toks[p].tokenType == IDENTIFIER then Ok(Some(NewIdentifier(toks[p])))
    else Fail(ParsingError("Invalid token for shape declaration: " + toks[p].text))
  }

  /** `parseDeclaration`: a name, "<:" or ":", and the bound. */
  function ParseDeclaration(toks: seq<Token>, scopes: seq<Scope>, scopeId: Option<int>, p: nat)
    : (r: Result<Option<(STypeDeclaration, nat)>>)
    requires p <= |toks|
    ensures r.Ok? ==> (r.value.None? <==> p == |toks|)
    ensures r.Ok? && r.value.Some? ==> p < r.value.value.1 <= |toks|
  {
    var idUntyped :- ParseIdentifier(toks, p);
    if idUntyped.None? then Ok(None) else DeclarationBound(toks, scopes, scopeId, p, idUntyped.value)
  }

  /** The rest of `parseDeclaration` once the name `id` at `p` is read: the subtype operator and the bound. */
  function DeclarationBound(toks: seq<Token>, scopes: seq<Scope>, scopeId: Option<int>, p: nat, id: Identifier)
    : (r: Result<Option<(STypeDeclaration, nat)>>)
    requires p < |toks|
    ensures r.Ok? ==> r.value.Some? && p < r.value.value.1 <= |toks|
  {
    if p + 1 == |toks| then Fail(ParsingError("Expected subtype specification for " + id.name))
    else
      var op := toks[p + 1];
      if op.tokenType != SUBTYPE && op.tokenType != STRICTSUBTYPE then
        Fail(ParsingError("Expected parameter declaration with bound, got " + op.text))
      else
        var isStrictBound := op.tokenType == STRICTSUBTYPE;
        var res :- ParseDimOrShape(toks, scopes, p + 2);
        if res.None? then Fail(ParsingError("No constraint specified for parameter " + id.name))
        else
          var (constraint, q) := res.value;
          var fullId := Retype(id, DataTypeOf(constraint), Some(constraint), isStrictBound, scopeId);
          Ok(Some((STypeDeclaration(fullId, fullId.startIdx, End(constraint)), q)))
  }

  /** `parseDeclarationList`; the scope table returned is the parser's own after the declarations entered it. */
  function ParseDeclarationList(toks: seq<Token>, own: Scope, outer: seq<Scope>, scopeId: Option<int>, p: nat)
    : (r: Result<(Option<DeclarationList>, Scope, nat)>)
    requires p <= |toks|
    ensures r.Ok? ==> (r.value.0.None? <==> p == |toks|)
  {
    if p == |toks| then Ok((None, own, p))
    else DeclarationsLoop(toks, own, outer, scopeId, toks[p].startIdx, [], p)
  }

  /** The loop of `parseDeclarationList` (where `curr` is always the token at `p`) over the declarations read so far. */
  function DeclarationsLoop(toks: seq<Token>, own: Scope, outer: seq<Scope>, scopeId: Option<int>, start: int,
                            decs: seq<STypeDeclaration>, p: nat): (r: Result<(Option<DeclarationList>, Scope, nat)>)
    requires p <= |toks|
    ensures r.Ok? ==> r.value.0.Some?
    decreases |toks| - p
  {
    if p < |toks| then
      var curr := toks[p];
      var res :- ParseDeclaration(toks, AllScopes(own, outer, scopeId), scopeId, p);
      if res.None? then
        Fail(ParsingError("Expected shape parameter declaration, instead got " + curr.text + " at " + IntToString(curr.startIdx)))
      else
        var (dec, q) := res.value;
        var own' := if scopeId.Some? then own[dec.id.name := dec] else own;
        var next := At(toks, q);
        if next.None? then DeclarationsLoop(toks, own', outer, scopeId, start, decs + [dec], q)
        else if next.value.tokenType == SEP then DeclarationsLoop(toks, own', outer, scopeId, start, decs + [dec], q + 1)
        else Fail(ParsingError("Expected comma or end of declarations, instead got " + next.value.text + " at " + IntToString(next.value.startIdx)))
    else if decs == [] then Fail(Thrown("NoSuchElementException", "List is empty."))
    else Ok((Some(DeclarationList(decs, start, decs[|decs| - 1].endIdx)), own, p))
  }

  /** `parse`: the argument list or the declaration list, by mode; nothing to parse is an error. */
  function Parse(toks: seq<Token>, mode: ParseMode, own: Scope, outer: seq<Scope>, scopeId: Option<int>, p: nat)
    : (r: Result<(SNode, Scope, nat)>)
    requires p <= |toks|
  {
    match mode
    case ARGUMENT =>
      var res :- ParseArgumentList(toks, AllScopes(own, outer, scopeId), p);
      if res.0.None? then Fail(ParsingError("No shape arguments provided")) else Ok((Arguments(res.0.value), own, res.1))
    case DECLARATION =>
      var res :- ParseDeclarationList(toks, own, outer, scopeId, p);
      if res.0.None? then Fail(ParsingError("No declarations provided")) else Ok((Declarations(res.0.value), res.1, res.2))
  }
}
