/**
 * The recursive-descent `Parser` over a `LexStream`: each parse routine is a method that moves the stream's
 * cursor, and each is proved to compute the function of the same name in `ParsingSpec` started at the
 * cursor it was called at. A parser with a scope id owns a fresh mutable `DeclarationInfo`, which the
 * declaration list fills and which name resolution consults before the enclosing scopes.
 */
module Parsing {
  import opened Wrappers
  import opened Strings
  import opened Lexing
  import opened SNodes
  import opened DeclarationInfos
  import ParsingSpec
  import ParsingProperties

  /** A method's result and the cursor it leaves match a specification outcome: the same exception, or the same value and position. */
  ghost predicate Computes<T>(r: Result<T>, spec: Result<(T, nat)>, pos: nat)
  {
    match spec
    case Fail(e) => r == Fail(e)
    case Ok((v, q)) => r == Ok(v) && pos == q
  }

  /** A specification outcome whose `None` (Kotlin's null) leaves the cursor at `p`, with the position taken out of the option. */
  ghost function Flat<T>(spec: Result<Option<(T, nat)>>, p: nat): Result<(Option<T>, nat)>
  {
    match spec
    case Fail(e) => Fail(e)
    case Ok(None) => Ok((None, p))
    case Ok(Some((v, q))) => Ok((Some(v), q))
  }

  /** The cursor after an optional `consume()` at `p`. */
  ghost function After(toks: seq<Token>, p: nat, consume: bool): nat
  {
    if consume && p < |toks| then p + 1 else p
  }

  class Parser {
    const tokens: LexStream
    const parseMode: ParseMode
    const outerDeclarationInfo: seq<DeclarationInfo>
    const scopeId: Option<int>
    /** The parser's own scope table: present exactly when it has a scope id. */
    const declarationInfo: DeclarationInfo?
    /** The tables searched to resolve a name, the parser's own first. */
    const allDeclarationInfo: seq<DeclarationInfo>

    ghost predicate Valid()
      reads this, tokens
    {
      tokens.Valid() &&
      (declarationInfo != null <==> scopeId.Some?) &&
      (declarationInfo != null ==>
         declarationInfo.isMutable && declarationInfo.scopeID == scopeId.value && declarationInfo !in outerDeclarationInfo) &&
      allDeclarationInfo == (if declarationInfo != null then [declarationInfo] + outerDeclarationInfo else outerDeclarationInfo)
    }

    /** The parser's own declarations so far (none without a scope id). */
    function Own(): Scope
      reads this, declarationInfo
    {
      if declarationInfo != null then declarationInfo.declarations else map[]
    }

    /** The contents of all tables a name is resolved against, in search order. */
    function Scopes(): seq<Scope>
      reads this, allDeclarationInfo
    {
      ScopesOf(allDeclarationInfo)
    }

    /** The search order is the parser's own table, when it has one, before the enclosing ones. */
    lemma ScopesAreOwnThenOuter()
      requires Valid()
      ensures Scopes() == ParsingSpec.AllScopes(Own(), ScopesOf(outerDeclarationInfo), scopeId)
    {
      if declarationInfo != null {
        assert Scopes() == [Own()] + ScopesOf(outerDeclarationInfo);
      }
    }

    /** A parser with a scope id starts with an empty table of its own for that scope. */
    constructor(tokens: LexStream, parseMode: ParseMode, outerDeclarationInfo: seq<DeclarationInfo>, scopeId: Option<int>)
      requires tokens.Valid()
      ensures Valid()
      ensures this.tokens == tokens && this.parseMode == parseMode
      ensures this.outerDeclarationInfo == outerDeclarationInfo && this.scopeId == scopeId
      ensures declarationInfo != null ==> fresh(declarationInfo)
      ensures Own() == map[]
    {
      this.tokens := tokens;
      this.parseMode := parseMode;
      this.outerDeclarationInfo := outerDeclarationInfo;
      this.scopeId := scopeId;
      var info: DeclarationInfo? := null;
      if scopeId.Some? {
        info := new DeclarationInfo(map[], true, scopeId.value);
      }
      this.declarationInfo := info;
      this.allDeclarationInfo := if info != null then [info] + outerDeclarationInfo else outerDeclarationInfo;
    }

    /** `parse`: the argument list or the declaration list, by mode; nothing to parse is an error. */
    method Parse() returns (r: Result<SNode>)
      requires Valid()
      modifies tokens, declarationInfo
      ensures Valid()
      ensures var spec := ParsingSpec.Parse(tokens.tokens, parseMode, old(Own()), ScopesOf(outerDeclarationInfo), scopeId, old(tokens.pos));
        (spec.Fail? ==> r == Fail(spec.thrown)) &&
        (spec.Ok? ==> r == Ok(spec.value.0) && Own() == spec.value.1 && tokens.pos == spec.value.2)
    {
      ScopesAreOwnThenOuter();
      match parseMode
      case ARGUMENT =>
        var list :- ParseArgumentList();
        if list.None? {
          return Fail(ParsingError("No shape arguments provided"));
        }
        return Ok(Arguments(list.value));
      case DECLARATION =>
        var list :- ParseDeclarationList();
        if list.None? {
          return Fail(ParsingError("No declarations provided"));
        }
        return Ok(Declarations(list.value));
    }

    /**
     * `parseDeclarationList`: declarations separated by commas up to the end of input, each entered into
     * the parser's own table (when it has one) as soon as it is read.
     */
    method ParseDeclarationList() returns (r: Result<Option<DeclarationList>>)
      requires Valid()
      modifies tokens, declarationInfo
      ensures Valid()
      ensures var spec := ParsingSpec.ParseDeclarationList(tokens.tokens, old(Own()), ScopesOf(outerDeclarationInfo), scopeId, old(tokens.pos));
        (spec.Fail? ==> r == Fail(spec.thrown)) &&
        (spec.Ok? ==> r == Ok(spec.value.0) && Own() == spec.value.1 && tokens.pos == spec.value.2)
    {
      ghost var toks, outer := tokens.tokens, ScopesOf(outerDeclarationInfo);
      var first := tokens.Peek();
      if first.None? {
        return Ok(None);
      }
      var curr := first;
      var start := first.value.startIdx;
      var declarations: seq<STypeDeclaration> := [];
      while curr.Some?
        invariant Valid() && ScopesOf(outerDeclarationInfo) == outer
        invariant curr == tokens.Peek()
        invariant curr.Some? || declarations != []
        invariant ParsingSpec.DeclarationsLoop(toks, Own(), outer, scopeId, start, declarations, tokens.pos)
                  == ParsingSpec.ParseDeclarationList(toks, old(Own()), outer, scopeId, old(tokens.pos))
        decreases |tokens.tokens| - tokens.pos
      {
        var step :- ReadDeclaration(start, outer, declarations);
        declarations := declarations + [step.0];
        curr := step.1;
      }
      return Ok(Some(DeclarationList(declarations, start, declarations[|declarations| - 1].endIdx)));
    }

    /** `scopeId?.let { declarationInfo?.addToScope(dec) }`: the parser's own table, if any, files the declaration. */
    method EnterIntoScope(dec: STypeDeclaration)
      requires Valid()
      modifies declarationInfo
      ensures Valid()
      ensures Own() == if scopeId.Some? then old(Own())[dec.id.name := dec] else old(Own())
      ensures ScopesOf(outerDeclarationInfo) == old(ScopesOf(outerDeclarationInfo))
    {
      if scopeId.Some? {
        var _ := declarationInfo.AddToScope(dec);
      }
    }

    /**
     * One pass of the loop of `parseDeclarationList` at a token: the declaration there (never null at a
     * token), entered into the parser's own table, and the `when` that picks the next token, or the
     * exception one of them throws; it continues the loop function from the state before the pass.
     */
    method ReadDeclaration(ghost start: int, ghost outer: seq<Scope>, ghost decs: seq<STypeDeclaration>)
      returns (r: Result<(STypeDeclaration, Option<Token>)>)
      requires Valid() && ScopesOf(outerDeclarationInfo) == outer
      requires tokens.pos < |tokens.tokens|
      modifies tokens, declarationInfo
      ensures Valid() && ScopesOf(outerDeclarationInfo) == outer
      ensures r.Ok? ==> old(tokens.pos) < tokens.pos && r.value.1 == tokens.Peek()
      ensures ParsingSpec.DeclarationsLoop(tokens.tokens, old(Own()), outer, scopeId, start, decs, old(tokens.pos))
              == if r.Fail? then Fail(r.thrown)
                 else ParsingSpec.DeclarationsLoop(tokens.tokens, Own(), outer, scopeId, start, decs + [r.value.0], tokens.pos)
    {
      ScopesAreOwnThenOuter();
      ghost var toks, own, p := tokens.tokens, Own(), tokens.pos;
      var parsed := ParseDeclaration();
      if parsed.Fail? {
        return Fail(parsed.thrown);
      }
      var dec := parsed.value.value;
      EnterIntoScope(dec);
      r := NextDeclaration(start, outer, decs, own, dec, p);
    }

    /**
     * The `when` of `parseDeclarationList` after the declaration `dec` read from position `p` up to the
     * cursor: at the end of input the loop stops, after a "," it goes on at the next token, and any other
     * token is an error, as the loop function does from its state at `p` with the scope table `own`.
     */
    method NextDeclaration(ghost start: int, ghost outer: seq<Scope>, ghost decs: seq<STypeDeclaration>, ghost own: Scope,
                           dec: STypeDeclaration, ghost p: nat) returns (r: Result<(STypeDeclaration, Option<Token>)>)
      requires tokens.Valid() && p < tokens.pos
      requires ParsingSpec.ParseDeclaration(tokens.tokens, ParsingSpec.AllScopes(own, outer, scopeId), scopeId, p)
               == Ok(Some((dec, tokens.pos)))
      modifies tokens
      ensures tokens.Valid()
      ensures r.Ok? ==> old(tokens.pos) <= tokens.pos && r.value.1 == tokens.Peek()
      ensures ParsingSpec.DeclarationsLoop(tokens.tokens, own, outer, scopeId, start, decs, p)
              == if r.Fail? then Fail(r.thrown)
                 else ParsingSpec.DeclarationsLoop(tokens.tokens, if scopeId.Some? then own[dec.id.name := dec] else own,
                                                   outer, scopeId, start, decs + [r.value.0], tokens.pos)
    {
      ParsingProperties.DeclarationsLoopRound(tokens.tokens, own, outer, scopeId, start, decs, p, dec, tokens.pos);
      var next := tokens.Peek();
      if next.None? {
        return Ok((dec, None));
      } else if next.value.tokenType == SEP {
        var _ := tokens.Consume();
        var after := tokens.Peek();
        return Ok((dec, after));
      }
      return Fail(ParsingError("Expected comma or end of declarations, instead got " + next.value.text + " at " + IntToString(next.value.startIdx)));
    }

    /** `parseArgumentList`, with the missing "Unmatched left parenthesis" check at the end of its loop. */
    method ParseArgumentList() returns (r: Result<Option<ArgumentList>>)
      requires Valid()
      modifies tokens
      ensures Valid()
      ensures Computes(r, ParsingSpec.ParseArgumentList(tokens.tokens, Scopes(), old(tokens.pos)), tokens.pos)
      decreases |tokens.tokens| - tokens.pos, 3
    {
      var first := tokens.Peek();
      if first.None? {
        return Ok(None);
      }
      var curr := first;
      var start := first.value.startIdx;
      var arguments: seq<STypeNode> := [];
      var withParens := first.value.tokenType == LPARENS;
      if withParens {
        var _ := tokens.Consume();
      }
      ghost var toks, scopes := tokens.tokens, Scopes();
      while curr.Some? && curr.value.tokenType != RPARENS
        invariant Valid() && Scopes() == scopes
        invariant old(tokens.pos) <= tokens.pos
        invariant ParsingSpec.ArgumentsLoop(toks, scopes, withParens, start, curr, arguments, tokens.pos)
                  == ParsingSpec.ParseArgumentList(toks, scopes, old(tokens.pos))
        decreases |tokens.tokens| - tokens.pos
      {
        var step :- ReadArgument(withParens, start, curr.value, scopes, arguments);
        arguments := arguments + [step.0];
        curr := step.1;
      }
      r := CloseArgumentList(withParens, start, curr, arguments, tokens.pos);
    }

    /**
     * The exit of the loop of `parseArgumentList`, with the missing check for an unmatched "(" at the end of
     * input: a list closed by ")" ends there, any other ends with its last argument (or one past its start).
     */
    method CloseArgumentList(withParens: bool, start: int, curr: Option<Token>, arguments: seq<STypeNode>, ghost p: nat)
      returns (r: Result<Option<ArgumentList>>)
      ensures Computes(r, ParsingSpec.CloseArguments(withParens, start, curr, arguments, p), p)
    {
      if withParens && curr.None? {
        return Fail(ParsingError(ParsingSpec.UnmatchedLeftParenthesis(start)));
      }
      if withParens && curr.value.tokenType == RPARENS {
        return Ok(Some(ArgumentList(arguments, start, curr.value.endIdx)));
      }
      return Ok(Some(ArgumentList(arguments, start, if arguments == [] then start + 1 else End(arguments[|arguments| - 1]))));
    }

    /**
     * One pass of the loop of `parseArgumentList` at the token `curr`: the argument there (an error when
     * none can be read) and the `when` that picks the next token, or the exception one of them throws; it
     * continues the loop function from the state before the pass.
     */
    method ReadArgument(withParens: bool, start: int, curr: Token, ghost scopes: seq<Scope>, ghost args: seq<STypeNode>)
      returns (r: Result<(STypeNode, Option<Token>)>)
      requires Valid() && Scopes() == scopes
      requires curr.tokenType != RPARENS
      modifies tokens
      ensures Valid() && Scopes() == scopes
      ensures r.Ok? ==> old(tokens.pos) < tokens.pos
      ensures ParsingSpec.ArgumentsLoop(tokens.tokens, scopes, withParens, start, Some(curr), args, old(tokens.pos))
              == if r.Fail? then Fail(r.thrown)
                 else ParsingSpec.ArgumentsLoop(tokens.tokens, scopes, withParens, start, r.value.1, args + [r.value.0], tokens.pos)
      decreases |tokens.tokens| - tokens.pos, 2
    {
      ghost var p := tokens.pos;
      var arg := ParseDimOrShape();
      if arg.Fail? {
        return Fail(arg.thrown);
      }
      if arg.value.None? {
        return Fail(ParsingError("Could not process argument " + curr.text + " at " + IntToString(curr.startIdx)));
      }
      var next :- NextArgument(withParens, start, curr, scopes, args, arg.value.value, p);
      return Ok((arg.value.value, next));
    }

    /**
     * The `when` of `parseArgumentList` that follows the argument `arg` read from position `p` up to the
     * cursor: it picks the loop's next token, or throws, as the loop function does from its state at `p`.
     */
    method NextArgument(withParens: bool, start: int, curr: Token, ghost scopes: seq<Scope>, ghost args: seq<STypeNode>,
                        ghost arg: STypeNode, ghost p: nat) returns (r: Result<Option<Token>>)
      requires Valid()
      requires curr.tokenType != RPARENS
      requires p <= |tokens.tokens| && ParsingSpec.ParseDimOrShape(tokens.tokens, scopes, p) == Ok(Some((arg, tokens.pos)))
      modifies tokens
      ensures Valid()
      ensures old(tokens.pos) <= tokens.pos
      ensures ParsingSpec.ArgumentsLoop(tokens.tokens, scopes, withParens, start, Some(curr), args, p)
              == if r.Fail? then Fail(r.thrown)
                 else ParsingSpec.ArgumentsLoop(tokens.tokens, scopes, withParens, start, r.value, args + [arg], tokens.pos)
    {
      ParsingProperties.ArgumentsLoopRound(tokens.tokens, scopes, withParens, start, curr, args, p, arg, tokens.pos);
      var next := tokens.Peek();
      if next.None? {
        if withParens {
          return Fail(ParsingError(ParsingSpec.UnmatchedLeftParenthesis(start)));
        }
        return Ok(None);
      } else if next.value.tokenType == SEP {
        var _ := tokens.Consume();
        var after := tokens.Peek();
        return Ok(after);
      } else if next.value.tokenType == RPARENS {
        if !withParens {
          return Fail(ParsingError("Unmatched right parenthesis ) at " + IntToString(curr.startIdx)));
        }
        var close := tokens.Consume();
        return Ok(close);
      }
      return Fail(ParsingError("Expected comma or end of arguments, instead got " + next.value.text + " at " + IntToString(next.value.startIdx)));
    }

    /** `parseDeclaration`: a name, "<:" or ":", and the bound, which also gives the name its data type. */
    method ParseDeclaration() returns (r: Result<Option<STypeDeclaration>>)
      requires Valid()
      modifies tokens
      ensures Valid()
      ensures Computes(r, Flat(ParsingSpec.ParseDeclaration(tokens.tokens, Scopes(), scopeId, old(tokens.pos)), old(tokens.pos)), tokens.pos)
    {
      var idUntyped :- ParseIdentifier();
      if idUntyped.None? {
        return Ok(None);
      }
      r := ParseBound(idUntyped.value, tokens.pos - 1);
    }

    /** The rest of `parseDeclaration` once the name `id` at `p` is read: the subtype operator and the bound. */
    method ParseBound(id: Identifier, ghost p: nat) returns (r: Result<Option<STypeDeclaration>>)
      requires Valid() && p < |tokens.tokens| && tokens.pos == p + 1
      modifies tokens
      ensures Valid()
      ensures Computes(r, Flat(ParsingSpec.DeclarationBound(tokens.tokens, Scopes(), scopeId, p, id), p), tokens.pos)
    {
      var idUntyped := Some(id);
      var maybeSubtypeOp := tokens.Consume();
      if maybeSubtypeOp.None? {
        return Fail(ParsingError("Expected subtype specification for " + idUntyped.value.name));
      }
      var op := maybeSubtypeOp.value;
      if op.tokenType != SUBTYPE && op.tokenType != STRICTSUBTYPE {
        return Fail(ParsingError("Expected parameter declaration with bound, got " + op.text));
      }
      var isStrictBound := op.tokenType == STRICTSUBTYPE;
      var constraint :- ParseDimOrShape();
      if constraint.None? {
        return Fail(ParsingError("No constraint specified for parameter " + idUntyped.value.name));
      }
      var fullId := ParsingSpec.Retype(idUntyped.value, DataTypeOf(constraint.value), constraint, isStrictBound, scopeId);
      return Ok(Some(STypeDeclaration(fullId, fullId.startIdx, End(constraint.value))));
    }

    /** `parseIdentifier(isNewDeclaration = true)`: the name a declaration introduces. */
    method ParseIdentifier() returns (r: Result<Option<Identifier>>)
      requires Valid()
      modifies tokens
      ensures Valid()
      ensures r == ParsingSpec.ParseIdentifier(tokens.tokens, old(tokens.pos))
      ensures tokens.pos == After(tokens.tokens, old(tokens.pos), r.Ok? && r.value.Some?)
    {
      var maybeId := tokens.Peek();
      if maybeId.None? {
        return Ok(None);
      }
      if maybeId.value.tokenType != IDENTIFIER {
        return Fail(ParsingError("Invalid token for shape declaration: " + maybeId.value.text));
      }
      var id := MakeIdentifier(maybeId.value, true, None, None, true);
      return Ok(Some(id));
    }

    /** `parseDimOrShape`: one argument, chosen by its first token. */
    method ParseDimOrShape() returns (r: Result<Option<STypeNode>>)
      requires Valid()
      modifies tokens
      ensures Valid()
      ensures Computes(r, Flat(ParsingSpec.ParseDimOrShape(tokens.tokens, Scopes(), old(tokens.pos)), old(tokens.pos)), tokens.pos)
      decreases |tokens.tokens| - tokens.pos, 1
    {
      var maybeCurr := tokens.Peek();
      if maybeCurr.None? {
        return Ok(None);
      }
      var curr := maybeCurr.value;
      match curr.tokenType
      case SHAPE =>
        var id := MakeIdentifier(curr, false, Some(DataType.SHAPE), None, true);
        return Ok(Some(IdentifierNode(id)));
      case DIM =>
        var id := MakeIdentifier(curr, false, Some(DataType.DIM), None, true);
        return Ok(Some(IdentifierNode(id)));
      case IDENTIFIER =>
        var _ := tokens.Consume();
        var next := tokens.Peek();
        if ParsingSpec.Is(next, LPARENS) {
          var call :- ParseShapeFunctionCall(curr);
          return Ok(Some(call));
        }
        var id := MakeIdentifier(curr, false, None, scopeId, false);
        return Ok(Some(IdentifierNode(id)));
      case INTLITERAL =>
        var literal :- MakeInt(curr, true);
        return Ok(Some(literal));
      case WILDCARD =>
        var wildcard := MakeWildcard(curr, None, true);
        return Ok(Some(wildcard));
      case LSQUARE =>
        r := ParseShapeLiteral();
      case _ =>
        return Fail(ParsingError("Expected shape at " + IntToString(curr.startIdx) + ", instead got " + curr.text));
    }

    /** `parseShapeFunctionCall(id, null)`, called at the "(" after the function's name. */
    method ParseShapeFunctionCall(id: Token) returns (r: Result<STypeNode>)
      requires Valid()
      modifies tokens
      ensures Valid()
      ensures Computes(r, ParsingSpec.ParseShapeFunctionCall(tokens.tokens, Scopes(), id, old(tokens.pos)), tokens.pos)
      decreases |tokens.tokens| - tokens.pos, 4
    {
      var arguments :- ParseArgumentList();
      if arguments.None? {
        return Fail(ParsingError("Attempted to parse shape function call but could not find invocation."));
      }
      return Ok(SFunctionCall(FunctionIdentifier(id.text, id.startIdx, id.endIdx), arguments.value, None, id.startIdx, arguments.value.endIdx));
    }

    /** `parseShapeLiteral`: "[", dims separated by commas, "]"; a shape-typed entry is refused. */
    method ParseShapeLiteral() returns (r: Result<Option<STypeNode>>)
      requires Valid()
      modifies tokens
      ensures Valid()
      ensures Computes(r, Flat(ParsingSpec.ParseShapeLiteral(tokens.tokens, Scopes(), old(tokens.pos)), old(tokens.pos)), tokens.pos)
      decreases |tokens.tokens| - tokens.pos, 0
    {
      ghost var toks, scopes := tokens.tokens, Scopes();
      var curr := tokens.Consume();
      if curr.None? {
        return Ok(None);
      }
      var start := curr.value.startIdx;
      var dims: seq<STypeNode> := [];
      if curr.value.tokenType != LSQUARE {
        return Fail(ParsingError("Expected shape literal beginning with ["));
      }
      var isClosed := false;
      var after := tokens.Peek();
      if ParsingSpec.Is(after, RSQUARE) {
        var close := tokens.Consume();
        return Ok(Some(ShapeLiteral([], start, close.value.endIdx)));
      }
      assert Scopes() == scopes;
      while !ParsingSpec.Is(curr, RSQUARE)
        invariant Valid() && Scopes() == scopes
        invariant old(tokens.pos) < tokens.pos
        invariant ParsingSpec.DimsLoop(toks, scopes, start, curr, dims, isClosed, tokens.pos)
                  == ParsingSpec.ParseShapeLiteral(toks, scopes, old(tokens.pos))
        decreases |tokens.tokens| - tokens.pos
      {
        var step :- ReadDim(start, curr, isClosed, scopes, dims);
        dims := dims + [step.0];
        curr, isClosed := step.1, step.2;
      }
      if !isClosed {
        return Fail(ParsingError("Unmatched left bracket at " + IntToString(start)));
      }
      return Ok(Some(ShapeLiteral(dims, start, curr.value.endIdx)));
    }

    /**
     * One pass of the loop of `parseShapeLiteral`: the dim at the cursor (an error when none can be read or
     * when it is a shape) and the `when` that picks the next token and whether the literal is closed, or the
     * exception one of them throws; it continues the loop function from the state before the pass.
     */
    method ReadDim(start: int, curr: Option<Token>, isClosed: bool, ghost scopes: seq<Scope>, ghost dims: seq<STypeNode>)
      returns (r: Result<(STypeNode, Option<Token>, bool)>)
      requires Valid() && Scopes() == scopes
      requires !ParsingSpec.Is(curr, RSQUARE)
      modifies tokens
      ensures Valid() && Scopes() == scopes
      ensures r.Ok? ==> old(tokens.pos) < tokens.pos
      ensures ParsingSpec.DimsLoop(tokens.tokens, scopes, start, curr, dims, isClosed, old(tokens.pos))
              == if r.Fail? then Fail(r.thrown)
                 else ParsingSpec.DimsLoop(tokens.tokens, scopes, start, r.value.1, dims + [r.value.0], r.value.2, tokens.pos)
      decreases |tokens.tokens| - tokens.pos, 2
    {
      ghost var p := tokens.pos;
      var parsed := ParseDimOrShape();
      if parsed.Fail? {
        return Fail(parsed.thrown);
      }
      if parsed.value.None? {
        return Fail(ParsingError("Could not process argument at " + if curr.Some? then IntToString(curr.value.startIdx) else "null"));
      }
      var dim := parsed.value.value;
      if DataTypeOf(dim) == Some(DataType.SHAPE) {
        return Fail(ParsingError("Invalid argument for dimensions at " + IntToString(Start(dim))));
      }
      var next :- NextDim(start, curr, isClosed, scopes, dims, dim, p);
      return Ok((dim, next.0, next.1));
    }

    /**
     * The `when` of `parseShapeLiteral` that follows the dim `dim` read from position `p` up to the cursor:
     * it picks the loop's next token and whether the literal is closed, or throws, as the loop function
     * does from its state at `p`.
     */
    method NextDim(start: int, curr: Option<Token>, isClosed: bool, ghost scopes: seq<Scope>, ghost dims: seq<STypeNode>,
                   ghost dim: STypeNode, ghost p: nat) returns (r: Result<(Option<Token>, bool)>)
      requires Valid()
      requires !ParsingSpec.Is(curr, RSQUARE) && DataTypeOf(dim) != Some(DataType.SHAPE)
      requires p <= |tokens.tokens| && ParsingSpec.ParseDimOrShape(tokens.tokens, scopes, p) == Ok(Some((dim, tokens.pos)))
      modifies tokens
      ensures Valid()
      ensures old(tokens.pos) <= tokens.pos
      ensures ParsingSpec.DimsLoop(tokens.tokens, scopes, start, curr, dims, isClosed, p)
              == if r.Fail? then Fail(r.thrown)
                 else ParsingSpec.DimsLoop(tokens.tokens, scopes, start, r.value.0, dims + [dim], r.value.1, tokens.pos)
    {
      var next := tokens.Peek();
      if next.None? {
        return Fail(ParsingError("Unmatched left bracket at " + IntToString(start)));
      } else if next.value.tokenType == SEP {
        var _ := tokens.Consume();
        var after := tokens.Peek();
        return Ok((after, isClosed));
      } else if next.value.tokenType == RSQUARE {
        var close := tokens.Consume();
        return Ok((close, true));
      }
      return Fail(ParsingError("Expected comma or ], instead got " + next.value.text + " at " + IntToString(next.value.startIdx)));
    }

    /** `makeInt`: the literal's value (a NumberFormatException when it has none), consuming it on success if asked. */
    method MakeInt(token: Token, consumeOnParse: bool) returns (r: Result<STypeNode>)
      requires Valid()
      modifies tokens
      ensures Valid()
      ensures ParsingSpec.ParseInt(token.text).Fail? ==> r == Fail(ParsingSpec.ParseInt(token.text).thrown)
      ensures ParsingSpec.ParseInt(token.text).Ok? ==> r == Ok(IntLiteral(ParsingSpec.ParseInt(token.text).value, token.startIdx, token.endIdx))
      ensures tokens.pos == After(tokens.tokens, old(tokens.pos), consumeOnParse && r.Ok?)
    {
      var value :- ParsingSpec.ParseInt(token.text);
      r := Ok(IntLiteral(value, token.startIdx, token.endIdx));
      if consumeOnParse {
        var _ := tokens.Consume();
      }
    }

    /**
     * `makeIdentifier`: a new declaration's bare name, or a reference that takes its bound, strictness and
     * scope from the declaration it resolves to (and its data type too, unless one is given).
     */
    method MakeIdentifier(token: Token, isNewDeclaration: bool, dataType: Option<DataType>, newScopeId: Option<int>,
                          consumeOnParse: bool) returns (id: Identifier)
      requires Valid()
      modifies tokens
      ensures Valid()
      ensures isNewDeclaration ==> id == Identifier(token.text, dataType, token.startIdx, token.endIdx, None, false, newScopeId)
      ensures !isNewDeclaration ==> id == ParsingSpec.Reference(Scopes(), token, dataType)
      ensures tokens.pos == After(tokens.tokens, old(tokens.pos), consumeOnParse)
    {
      if isNewDeclaration {
        id := Identifier(token.text, dataType, token.startIdx, token.endIdx, None, false, newScopeId);
      } else {
        var existingDec := LookupInScopeAndParents(token.text);
        var lookupType := if dataType.Some? then dataType else if existingDec.Some? then existingDec.value.dataType else None;
        id := Identifier(token.text, lookupType, token.startIdx, token.endIdx,
                         if existingDec.Some? then existingDec.value.upperBound else None,
                         existingDec.Some? && existingDec.value.isStrictBound,
                         if existingDec.Some? then existingDec.value.scopeId else None);
        assert id == ParsingSpec.Reference(Scopes(), token, dataType);
      }
      ghost var scopes := Scopes();
      if consumeOnParse {
        var _ := tokens.Consume();
      }
      assert Scopes() == scopes;
    }

    /** `makeWildcard`. */
    method MakeWildcard(token: Token, dataType: Option<DataType>, consumeOnParse: bool) returns (w: STypeNode)
      requires Valid()
      modifies tokens
      ensures Valid()
      ensures w == Wildcard(dataType, token.startIdx, token.endIdx)
      ensures tokens.pos == After(tokens.tokens, old(tokens.pos), consumeOnParse)
    {
      w := Wildcard(dataType, token.startIdx, token.endIdx);
      if consumeOnParse {
        var _ := tokens.Consume();
      }
    }

    /** `lookupInScopeAndParents`: the identifier of the first declaration of the name, own table first. */
    function LookupInScopeAndParents(id: string): (r: Option<Identifier>)
      reads this, allDeclarationInfo
      ensures r.None? <==> LookupIn(Scopes(), id).None?
      ensures r.Some? ==> r.value == LookupIn(Scopes(), id).value.id
    {
      var dec := LookupInInfos(allDeclarationInfo, id);
      if dec.Some? then Some(dec.value.id) else None
    }
  }

  // ---------------------------------------------------------------------------------------------
  // The companion object: lex a text, then parse it in a fresh scope whose id stands for the enclosing declaration.

  /** What `parseSTypeArguments` returns for a text; the `as ArgumentList` cast holds because argument mode yields arguments. */
  function ArgumentsOfText(text: string, outer: seq<Scope>, scopeId: int): Result<ArgumentList>
  {
    var toks :- LexFrom(text, ARGUMENT, false, 0);
    var res :- ParsingSpec.Parse(toks, ARGUMENT, map[], outer, Some(scopeId), 0);
    ParsingProperties.ParseResults(toks, ARGUMENT, map[], outer, Some(scopeId), 0);
    Ok(res.0.arguments)
  }

  /** What `parseSTypeDeclarations` returns for a text; the `as DeclarationList` cast holds because declaration mode yields declarations. */
  function DeclarationsOfText(text: string, outer: seq<Scope>, scopeId: int): Result<DeclarationList>
  {
    var toks :- LexFrom(text, DECLARATION, false, 0);
    var res :- ParsingSpec.Parse(toks, DECLARATION, map[], outer, Some(scopeId), 0);
    ParsingProperties.ParseResults(toks, DECLARATION, map[], outer, Some(scopeId), 0);
    Ok(res.0.declarations)
  }

  /** A declaration text that parses declares at least one parameter, and every one of its tokens was read. */
  lemma DeclarationTextsDeclareSomething(text: string, outer: seq<Scope>, scopeId: int)
    requires DeclarationsOfText(text, outer, scopeId).Ok?
    ensures DeclarationsOfText(text, outer, scopeId).value.declarations != []
    ensures var toks := LexFrom(text, DECLARATION, false, 0).value;
      ParsingSpec.Parse(toks, DECLARATION, map[], outer, Some(scopeId), 0).value.2 == |toks|
  {
    var toks := LexFrom(text, DECLARATION, false, 0).value;
    ParsingProperties.ParseResults(toks, DECLARATION, map[], outer, Some(scopeId), 0);
  }

  /** `parseSTypeArguments`, with the enclosing declaration's hash code given as `scopeId`. */
  method ParseSTypeArguments(text: string, sTypeDeclarations: seq<DeclarationInfo>, scopeId: int) returns (r: Result<ArgumentList>)
    ensures r == ArgumentsOfText(text, ScopesOf(sTypeDeclarations), scopeId)
  {
    var lexer := new STypeLexer(text, ARGUMENT);
    var lexStream :- lexer.Lex(false);
    var parser := new Parser(lexStream, ARGUMENT, sTypeDeclarations, Some(scopeId));
    var node :- parser.Parse();
    ParsingProperties.ParseResults(lexStream.tokens, ARGUMENT, map[], ScopesOf(sTypeDeclarations), Some(scopeId), 0);
    return Ok(node.arguments);
  }

  /** `parseSTypeDeclarations`, with the enclosing declaration's hash code given as `scopeId`. */
  method ParseSTypeDeclarations(text: string, sTypeDeclarations: seq<DeclarationInfo>, scopeId: int) returns (r: Result<DeclarationList>)
    ensures r == DeclarationsOfText(text, ScopesOf(sTypeDeclarations), scopeId)
  {
    var lexer := new STypeLexer(text, DECLARATION);
    var lexStream :- lexer.Lex(false);
    var parser := new Parser(lexStream, DECLARATION, sTypeDeclarations, Some(scopeId));
    var node :- parser.Parse();
    ParsingProperties.ParseResults(lexStream.tokens, DECLARATION, map[], ScopesOf(sTypeDeclarations), Some(scopeId), 0);
    return Ok(node.declarations);
  }
}
