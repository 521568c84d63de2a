/**
 * The lexer of the annotation language: `STypeLexer` turns the text of an `@SData`-style annotation into
 * tokens, and `LexStream` is the cursor over them that the parser consumes. The lexer is specified by
 * `Lexed`, which reads the text left to right, one token at a time, with maximal munch for names,
 * numbers and runs of whitespace.
 */
module Lexing {
  import opened Wrappers
  import opened Strings

  datatype TokenType =
    | WHITESPACE | IDENTIFIER | INTLITERAL | LSQUARE | RSQUARE | LPARENS | RPARENS | SEP | WILDCARD
    | SUBTYPE | STRICTSUBTYPE | DIM | SHAPE

  /** A token: its text and the offsets `[startIdx, endIdx)` it covers. */
  datatype Token = Token(text: string, startIdx: int, endIdx: int, tokenType: TokenType)

  /** The secondary constructor of one-character tokens. */
  function CharToken(c: char, startIdx: int, tokenType: TokenType): (t: Token)
    ensures t.text == [c] && t.startIdx == startIdx && t.endIdx == startIdx + 1 && t.tokenType == tokenType
  {
    Token([c], startIdx, startIdx + 1, tokenType)
  }

  /** What is being parsed: the arguments of a shaped value, or the shape parameters a declaration introduces. */
  datatype ParseMode = DECLARATION | ARGUMENT

  /** What lexing and parsing throw: an `STypeParsingError` with the message. */
  function ParsingError(message: string): Thrown
  {
    Thrown("STypeParsingError", message)
  }

  function InvalidToken(c: char, p: int): string
  {
    "Invalid token " + [c] + " at " + IntToString(p)
  }

  // ---------------------------------------------------------------------------------------------
  // Character classes (the JVM's, restricted to ASCII)

  predicate IsJavaIdentifierStart(c: char)
  {
    ('a' <= c <= 'z') || ('A' <= c <= 'Z') || c == '_' || c == '$'
  }

  /** Identifier parts: starts, digits, and the control characters Java ignores inside identifiers. */
  predicate IsJavaIdentifierPart(c: char)
  {
    IsJavaIdentifierStart(c) || IsDigit(c) || ('\0' <= c <= '\U{8}') || ('\U{E}' <= c <= '\U{1B}') || c == '\U{7F}'
  }

  /** `Char.isWhitespace`: tab to carriage return, the four separators and the space. */
  predicate IsWhitespace(c: char)
  {
    ('\t' <= c <= '\r') || ('\U{1C}' <= c <= ' ')
  }

  /** The runs the lexer munches. */
  datatype CharClass = IdentifierPart | Digit | Space

  predicate InClass(c: char, k: CharClass)
  {
    match k
    case IdentifierPart => IsJavaIdentifierPart(c)
    case Digit => IsDigit(c)
    case Space => IsWhitespace(c)
  }

  /** The end of the longest run of class `k` starting at `p`. */
  function RunEnd(input: string, p: nat, k: CharClass): (e: nat)
    requires p <= |input|
    ensures p <= e <= |input|
    ensures forall i :: p <= i < e ==> InClass(input[i], k)
    ensures e < |input| ==> !InClass(input[e], k)
    decreases |input| - p
  {
    if p < |input| && InClass(input[p], k) then RunEnd(input, p + 1, k) else p
  }

  /** The only run end: the first position after `p` whose character is outside the class. */
  lemma {:induction false} RunEndUnique(input: string, p: nat, e: nat, k: CharClass)
    requires p <= e <= |input|
    requires forall i :: p <= i < e ==> InClass(input[i], k)
    requires e < |input| ==> !InClass(input[e], k)
    ensures RunEnd(input, p, k) == e
    decreases e - p
  {
    if p < e {
      RunEndUnique(input, p + 1, e, k);
    }
  }

  /** `SHAPE` and `DIM` for the two base type names, `IDENTIFIER` for every other name. */
  function KeywordType(name: string): (t: TokenType)
    ensures t == SHAPE <==> name == "Shape"
    ensures t == DIM <==> name == "Dim"
    ensures t == SHAPE || t == DIM || t == IDENTIFIER
  {
    if name == "Shape" then SHAPE else if name == "Dim" then DIM else IDENTIFIER
  }

  // ---------------------------------------------------------------------------------------------
  // Specification

  /** The run token of class `k` starting at `p`, whose first character has already been read. */
  function RunToken(input: string, p: nat, k: CharClass): (t: Token)
    requires p < |input|
  {
    var e := RunEnd(input, p + 1, k);
    var text := input[p..e];
    Token(text, p, e, match k case IdentifierPart => KeywordType(text) case Digit => INTLITERAL case Space => WHITESPACE)
  }

  /**
   * One step of `lex` at `p`: the token read there (none for dropped whitespace) and the position after it,
   * or the failure for a character that starts no token.
   */
  function Step(input: string, mode: ParseMode, includeWhitespace: bool, p: nat): (r: Result<(Option<Token>, nat)>)
    requires p < |input|
    ensures r.Ok? ==> p < r.value.1 <= |input|
  {
    var c := input[p];
    if c == '[' then Ok((Some(CharToken(c, p, LSQUARE)), p + 1))
    else if c == ']' then Ok((Some(CharToken(c, p, RSQUARE)), p + 1))
    else if c == '(' then Ok((Some(CharToken(c, p, LPARENS)), p + 1))
    else if c == ')' then Ok((Some(CharToken(c, p, RPARENS)), p + 1))
    else if c == ',' then Ok((Some(CharToken(c, p, SEP)), p + 1))
    else if c == '*' then Ok((Some(CharToken(c, p, WILDCARD)), p + 1))
    else if IsJavaIdentifierStart(c) then Ok((Some(RunToken(input, p, IdentifierPart)), RunEnd(input, p + 1, IdentifierPart)))
    else if IsDigit(c) then Ok((Some(RunToken(input, p, Digit)), RunEnd(input, p + 1, Digit)))
    else if IsWhitespace(c) then
      if includeWhitespace then Ok((Some(RunToken(input, p, Space)), RunEnd(input, p + 1, Space))) else Ok((None, p + 1))
    else if c == ':' then
      if mode == DECLARATION then Ok((Some(CharToken(c, p, SUBTYPE)), p + 1))
      else Fail(ParsingError("Invalid token : at " + IntToString(p)))
    else if c == '<' then
      if mode == DECLARATION && p + 1 < |input| && input[p + 1] == ':' then Ok((Some(Token("<:", p, p + 2, STRICTSUBTYPE)), p + 2))
      else Fail(ParsingError("Invalid token < at " + IntToString(p)))
    else Fail(ParsingError(InvalidToken(c, p)))
  }

  function OptionToSeq<T>(o: Option<T>): seq<T>
  {
    if o.Some? then [o.value] else []
  }

  /** The tokens from `p` on, or the first failure. */
  function LexFrom(input: string, mode: ParseMode, includeWhitespace: bool, p: nat): (r: Result<seq<Token>>)
    requires p <= |input|
    decreases |input| - p
  {
    if p == |input| then Ok([])
    else
      var (t, q) :- Step(input, mode, includeWhitespace, p);
      var rest :- LexFrom(input, mode, includeWhitespace, q);
      Ok(OptionToSeq(t) + rest)
  }

  /** `lex` on a fresh lexer. */
  function Lexed(input: string, mode: ParseMode, includeWhitespace: bool): Result<seq<Token>>
  {
    LexFrom(input, mode, includeWhitespace, 0)
  }

  /** `prefix` in front of the tokens of a successful result. */
  function Prepend(prefix: seq<Token>, r: Result<seq<Token>>): Result<seq<Token>>
  {
    match r
    case Ok(ts) => Ok(prefix + ts)
    case Fail(e) => Fail(e)
  }

  lemma PrependTwice(a: seq<Token>, b: seq<Token>, r: Result<seq<Token>>)
    ensures Prepend(a, Prepend(b, r)) == Prepend(a + b, r)
  {
    if r.Ok? {
      assert a + (b + r.value) == (a + b) + r.value;
    }
  }

  // ---------------------------------------------------------------------------------------------
  // Properties of the specification

  /** A token covering a maximal run of class `k`. */
  predicate Munched(input: string, t: Token, k: CharClass)
    requires 0 <= t.startIdx <= t.endIdx <= |input|
  {
    (forall i :: t.startIdx <= i < t.endIdx ==> InClass(input[i], k)) && (t.endIdx < |input| ==> !InClass(input[t.endIdx], k))
  }

  /**
   * What every lexed token satisfies: it covers its own text of the input, `endIdx = startIdx + |text|`; names,
   * numbers and whitespace are maximal runs, names are typed by `KeywordType`, and the subtype operators
   * only occur in declarations.
   */
  predicate WellLexed(input: string, mode: ParseMode, t: Token)
  {
    && 0 <= t.startIdx < t.endIdx <= |input|
    && t.endIdx == t.startIdx + |t.text|
    && t.text == input[t.startIdx..t.endIdx]
    && match t.tokenType
       case IDENTIFIER | SHAPE | DIM => IsJavaIdentifierStart(t.text[0]) && Munched(input, t, IdentifierPart) && t.tokenType == KeywordType(t.text)
       case INTLITERAL => Munched(input, t, Digit)
       case WHITESPACE => Munched(input, t, Space)
       case SUBTYPE => mode == DECLARATION && t.text == ":"
       case STRICTSUBTYPE => mode == DECLARATION && t.text == "<:"
       case LSQUARE => t.text == "["
       case RSQUARE => t.text == "]"
       case LPARENS => t.text == "("
       case RPARENS => t.text == ")"
       case SEP => t.text == ","
       case WILDCARD => t.text == "*"
  }

  /** Whether a token can start at `q`: exactly the characters `Step` accepts there. */
  predicate StartsToken(input: string, mode: ParseMode, q: nat)
    requires q < |input|
  {
    var c := input[q];
    c == '[' || c == ']' || c == '(' || c == ')' || c == ',' || c == '*' ||
    IsJavaIdentifierStart(c) || IsDigit(c) || IsWhitespace(c) ||
    (c == ':' && mode == DECLARATION) ||
    (c == '<' && mode == DECLARATION && q + 1 < |input| && input[q + 1] == ':')
  }

  /** A run token starting at a character of its class is well lexed. */
  lemma RunTokenLexed(input: string, mode: ParseMode, p: nat, k: CharClass)
    requires p < |input| && InClass(input[p], k)
    requires k == IdentifierPart ==> IsJavaIdentifierStart(input[p])
    ensures var t := RunToken(input, p, k);
      WellLexed(input, mode, t) && t.startIdx == p && t.endIdx == RunEnd(input, p + 1, k)
  {
    var t := RunToken(input, p, k);
    assert t.text[0] == input[p];
  }

  /** One step fails exactly at a character that starts no token, naming that character and its offset. */
  lemma StepFails(input: string, mode: ParseMode, includeWhitespace: bool, p: nat)
    requires p < |input|
    ensures Step(input, mode, includeWhitespace, p).Ok? <==> StartsToken(input, mode, p)
    ensures Step(input, mode, includeWhitespace, p).Fail? ==>
      Step(input, mode, includeWhitespace, p).thrown == ParsingError(InvalidToken(input[p], p))
  {
    var c := input[p];
    if !StartsToken(input, mode, p) {
      if c == ':' {
        assert "Invalid token " + [c] + " at " == "Invalid token : at ";
      } else if c == '<' {
        assert "Invalid token " + [c] + " at " == "Invalid token < at ";
      }
    }
  }

  /** One step's token is well lexed and spans exactly `[p, q)`; dropped whitespace is one whitespace character. */
  lemma StepFacts(input: string, mode: ParseMode, includeWhitespace: bool, p: nat)
    requires p < |input|
    ensures Step(input, mode, includeWhitespace, p).Ok? <==> StartsToken(input, mode, p)
    ensures Step(input, mode, includeWhitespace, p).Fail? ==>
      Step(input, mode, includeWhitespace, p).thrown == ParsingError(InvalidToken(input[p], p))
    ensures Step(input, mode, includeWhitespace, p).Ok? ==>
      var (t, q) := Step(input, mode, includeWhitespace, p).value;
      && (t.Some? ==> WellLexed(input, mode, t.value) && t.value.startIdx == p && t.value.endIdx == q)
      && (t.Some? && t.value.tokenType == WHITESPACE ==> includeWhitespace)
      && (t.None? <==> !includeWhitespace && IsWhitespace(input[p]))
      && (t.None? ==> q == p + 1)
  {
    StepFails(input, mode, includeWhitespace, p);
    if Step(input, mode, includeWhitespace, p).Ok? {
      StepLexed(input, mode, includeWhitespace, p);
    }
  }

  /** A one-character token covers its own character. */
  lemma CharTokenLexed(input: string, mode: ParseMode, p: nat, tt: TokenType)
    requires p < |input|
    ensures var t := CharToken(input[p], p, tt);
      0 <= t.startIdx < t.endIdx <= |input| && t.endIdx == t.startIdx + |t.text| && t.text == input[t.startIdx..t.endIdx]
  {
  }

  lemma StepLexed(input: string, mode: ParseMode, includeWhitespace: bool, p: nat)
    requires p < |input| && Step(input, mode, includeWhitespace, p).Ok?
    ensures var (t, q) := Step(input, mode, includeWhitespace, p).value;
      && (t.Some? ==> WellLexed(input, mode, t.value) && t.value.startIdx == p && t.value.endIdx == q)
      && (t.Some? && t.value.tokenType == WHITESPACE ==> includeWhitespace)
      && (t.None? <==> !includeWhitespace && IsWhitespace(input[p]))
      && (t.None? ==> q == p + 1)
  {
    var c := input[p];
    if IsJavaIdentifierStart(c) || IsDigit(c) || IsWhitespace(c) {
      RunStepLexed(input, mode, includeWhitespace, p);
    } else {
      CharTokenLexed(input, mode, p, Step(input, mode, includeWhitespace, p).value.0.value.tokenType);
      if c == '<' {
        assert input[p..p + 2] == "<:";
      }
    }
  }

  /** A step at a name, number or whitespace character reads the maximal run of its class. */
  lemma RunStepLexed(input: string, mode: ParseMode, includeWhitespace: bool, p: nat)
    requires p < |input| && (IsJavaIdentifierStart(input[p]) || IsDigit(input[p]) || IsWhitespace(input[p]))
    ensures var (t, q) := Step(input, mode, includeWhitespace, p).value;
      && (t.Some? ==> WellLexed(input, mode, t.value) && t.value.startIdx == p && t.value.endIdx == q)
      && (t.Some? && t.value.tokenType == WHITESPACE ==> includeWhitespace)
      && (t.None? <==> !includeWhitespace && IsWhitespace(input[p]))
      && (t.None? ==> q == p + 1)
  {
    var c := input[p];
    if IsJavaIdentifierStart(c) {
      RunTokenLexed(input, mode, p, IdentifierPart);
    } else if IsDigit(c) {
      RunTokenLexed(input, mode, p, Digit);
    } else if includeWhitespace {
      RunTokenLexed(input, mode, p, Space);
    }
  }

  /** Every token of a successful lexing is well lexed, lies at or after `p`, and they come in increasing, non-overlapping order. */
  lemma {:induction false} LexedTokens(input: string, mode: ParseMode, includeWhitespace: bool, p: nat)
    requires p <= |input| && LexFrom(input, mode, includeWhitespace, p).Ok?
    ensures var ts := LexFrom(input, mode, includeWhitespace, p).value;
      && (forall i :: 0 <= i < |ts| ==> WellLexed(input, mode, ts[i]) && p <= ts[i].startIdx)
      && (forall i, j :: 0 <= i < j < |ts| ==> ts[i].endIdx <= ts[j].startIdx)
      && (!includeWhitespace ==> forall i :: 0 <= i < |ts| ==> ts[i].tokenType != WHITESPACE)
    decreases |input| - p
  {
    if p < |input| {
      StepFacts(input, mode, includeWhitespace, p);
      var (t, q) := Step(input, mode, includeWhitespace, p).value;
      LexedTokens(input, mode, includeWhitespace, q);
    }
  }

  /** A lexing fails exactly at a character that starts no token, with the message naming that character and its offset. */
  lemma {:induction false} LexFailure(input: string, mode: ParseMode, includeWhitespace: bool, p: nat)
    requires p <= |input| && LexFrom(input, mode, includeWhitespace, p).Fail?
    ensures exists q :: && p <= q < |input| && !StartsToken(input, mode, q)
                        && LexFrom(input, mode, includeWhitespace, p).thrown == ParsingError(InvalidToken(input[q], q))
    decreases |input| - p
  {
    StepFacts(input, mode, includeWhitespace, p);
    if Step(input, mode, includeWhitespace, p).Ok? {
      var (t, q) := Step(input, mode, includeWhitespace, p).value;
      LexFailure(input, mode, includeWhitespace, q);
    }
  }

  /** A text whose every character can start a token lexes without failure. */
  lemma {:induction false} LexSucceeds(input: string, mode: ParseMode, includeWhitespace: bool, p: nat)
    requires p <= |input| && forall q :: p <= q < |input| ==> StartsToken(input, mode, q)
    ensures LexFrom(input, mode, includeWhitespace, p).Ok?
    decreases |input| - p
  {
    if p < |input| {
      StepFacts(input, mode, includeWhitespace, p);
      var (t, q) := Step(input, mode, includeWhitespace, p).value;
      LexSucceeds(input, mode, includeWhitespace, q);
    }
  }

  /** The concatenated texts of a token list. */
  function Texts(ts: seq<Token>): string
  {
    if ts == [] then "" else ts[0].text + Texts(ts[1..])
  }

  /** A text with its whitespace characters removed. */
  function NonWhitespace(s: string): (r: string)
    ensures forall i :: 0 <= i < |r| ==> !IsWhitespace(r[i])
  {
    if s == [] then "" else (if IsWhitespace(s[0]) then "" else [s[0]]) + NonWhitespace(s[1..])
  }

  lemma {:induction false} NonWhitespaceAppend(a: string, b: string)
    ensures NonWhitespace(a + b) == NonWhitespace(a) + NonWhitespace(b)
  {
    if a != [] {
      assert (a + b)[0] == a[0] && (a + b)[1..] == a[1..] + b;
      NonWhitespaceAppend(a[1..], b);
      var h := if IsWhitespace(a[0]) then "" else [a[0]];
      assert a + b != [];
      assert NonWhitespace(a + b) == h + NonWhitespace((a + b)[1..]);
      assert NonWhitespace(a) == h + NonWhitespace(a[1..]);
      assert h + (NonWhitespace(a[1..]) + NonWhitespace(b)) == (h + NonWhitespace(a[1..])) + NonWhitespace(b);
    } else {
      assert a + b == b;
    }
  }

  lemma {:induction false} NonWhitespaceOfNoWhitespace(s: string)
    requires forall i :: 0 <= i < |s| ==> !IsWhitespace(s[i])
    ensures NonWhitespace(s) == s
  {
    if s != [] {
      NonWhitespaceOfNoWhitespace(s[1..]);
    }
  }

  lemma {:induction false} TextsAppend(a: seq<Token>, b: seq<Token>)
    ensures Texts(a + b) == Texts(a) + Texts(b)
  {
    if a != [] {
      assert (a + b)[0] == a[0] && (a + b)[1..] == a[1..] + b;
      TextsAppend(a[1..], b);
      assert a + b != [];
      assert Texts(a + b) == a[0].text + Texts((a + b)[1..]);
      assert a[0].text + (Texts(a[1..]) + Texts(b)) == (a[0].text + Texts(a[1..])) + Texts(b);
    } else {
      assert a + b == b;
    }
  }

  /**
   * Lexing loses nothing but whitespace: with whitespace kept the token texts spell out the input, and
   * without it they spell out the input with its whitespace removed.
   */
  lemma {:induction false} LexedTexts(input: string, mode: ParseMode, includeWhitespace: bool, p: nat)
    requires p <= |input| && LexFrom(input, mode, includeWhitespace, p).Ok?
    ensures includeWhitespace ==> Texts(LexFrom(input, mode, includeWhitespace, p).value) == input[p..]
    ensures !includeWhitespace ==> Texts(LexFrom(input, mode, includeWhitespace, p).value) == NonWhitespace(input[p..])
    decreases |input| - p
  {
    if p < |input| {
      StepFacts(input, mode, includeWhitespace, p);
      var (t, q) := Step(input, mode, includeWhitespace, p).value;
      LexedTexts(input, mode, includeWhitespace, q);
      var rest := LexFrom(input, mode, includeWhitespace, q).value;
      TextsAppend(OptionToSeq(t), rest);
      assert input[p..] == input[p..q] + input[q..];
      if t.Some? {
        assert [t.value][1..] == [];
        assert Texts(OptionToSeq(t)) == input[p..q];
      } else {
        assert Texts([]) == "";
      }
      if !includeWhitespace {
        NonWhitespaceAppend(input[p..q], input[q..]);
        if t.Some? {
          NoWhitespaceInTokens(input, mode, t.value);
          NonWhitespaceOfNoWhitespace(input[p..q]);
        } else {
          assert input[p..q] == [input[p]];
          assert NonWhitespace(input[p..q]) == "";
        }
      }
    }
  }

  /** A token other than whitespace holds no whitespace character. */
  lemma NoWhitespaceInTokens(input: string, mode: ParseMode, t: Token)
    requires WellLexed(input, mode, t) && t.tokenType != WHITESPACE
    ensures forall i :: 0 <= i < |t.text| ==> !IsWhitespace(t.text[i])
  {
    forall i | 0 <= i < |t.text|
      ensures !IsWhitespace(t.text[i])
    {
      assert t.text[i] == input[t.startIdx + i];
    }
  }

  // ---------------------------------------------------------------------------------------------
  // Examples (LexingTest)

  /** A strict bound in a declaration: the name, the two-character operator, and the base type `Dim`. */
  lemma StrictBoundExample()
    ensures Lexed("A <:Dim", DECLARATION, false) ==
      Ok([Token("A", 0, 1, IDENTIFIER), Token("<:", 2, 4, STRICTSUBTYPE), Token("Dim", 4, 7, DIM)])
  {
    var input := "A <:Dim";
    var a, op, dim := Token("A", 0, 1, IDENTIFIER), Token("<:", 2, 4, STRICTSUBTYPE), Token("Dim", 4, 7, DIM);
    assert RunEnd(input, 1, IdentifierPart) == 1;
    assert RunEnd(input, 5, IdentifierPart) == 7 by {
      assert RunEnd(input, 7, IdentifierPart) == 7;
    }
    assert input[0..1] == "A" && input[4..7] == "Dim";
    assert Step(input, DECLARATION, false, 0) == Ok((Some(a), 1));
    assert Step(input, DECLARATION, false, 1) == Ok((None, 2));
    assert Step(input, DECLARATION, false, 2) == Ok((Some(op), 4));
    assert Step(input, DECLARATION, false, 4) == Ok((Some(dim), 7));
    assert LexFrom(input, DECLARATION, false, 7) == Ok([]);
    assert OptionToSeq(Some(dim)) + [] == [dim];
    assert LexFrom(input, DECLARATION, false, 4) == Ok([dim]);
    assert OptionToSeq(Some(op)) + [dim] == [op, dim];
    assert LexFrom(input, DECLARATION, false, 2) == Ok([op, dim]);
    assert OptionToSeq<Token>(None) + [op, dim] == [op, dim];
    assert LexFrom(input, DECLARATION, false, 1) == Ok([op, dim]);
    assert OptionToSeq(Some(a)) + [op, dim] == [a, op, dim];
  }

  /** ":" is only an operator in declarations. */
  lemma ColonOutsideDeclarations()
    ensures Lexed("A:B", ARGUMENT, false) == Fail(ParsingError("Invalid token : at 1"))
  {
    assert RunEnd("A:B", 1, IdentifierPart) == 1;
    assert IntToString(1) == "1" by {
      assert DigitChar(1) == '1';
    }
  }

  /** "<" must be followed by ":". */
  lemma LoneAngle()
    ensures Lexed("A<B", DECLARATION, false) == Fail(ParsingError("Invalid token < at 1"))
  {
    assert RunEnd("A<B", 1, IdentifierPart) == 1;
    assert IntToString(1) == "1" by {
      assert DigitChar(1) == '1';
    }
  }

  // ---------------------------------------------------------------------------------------------
  // The token cursor

  class LexStream {
    const tokens: seq<Token>
    var pos: nat

    constructor(tokens: seq<Token>)
      ensures this.tokens == tokens && pos == 0 && Valid()
    {
      this.tokens := tokens;
      pos := 0;
    }

    /** The cursor never passes the end. */
    predicate Valid()
      reads this
    {
      pos <= |tokens|
    }

    /** `peek`: the token under the cursor, null exactly at the end. */
    function Peek(): (t: Option<Token>)
      reads this
      ensures t.None? <==> pos >= |tokens|
      ensures t.Some? ==> t.value == tokens[pos]
    {
      if pos < |tokens| then Some(tokens[pos]) else None
    }

    /** `consume`: the peeked token; the cursor moves on by one exactly when there was one. */
    method Consume() returns (t: Option<Token>)
      requires Valid()
      modifies this
      ensures Valid()
      ensures t == old(Peek())
      ensures pos == if old(pos) < |tokens| then old(pos) + 1 else old(pos)
    {
      t := Peek();
      if t.Some? {
        pos := pos + 1;
      }
    }
  }

  // ---------------------------------------------------------------------------------------------
  // The lexer

  class STypeLexer {
    const input: string
    const parseMode: ParseMode
    var pos: nat

    constructor(input: string, parseMode: ParseMode)
      ensures this.input == input && this.parseMode == parseMode && pos == 0 && Valid()
    {
      this.input := input;
      this.parseMode := parseMode;
      pos := 0;
    }

    predicate Valid()
      reads this
    {
      pos <= |input|
    }

    function Peek(): (c: Option<char>)
      reads this
      ensures c.None? <==> pos >= |input|
      ensures c.Some? ==> c.value == input[pos]
    {
      if pos < |input| then Some(input[pos]) else None
    }

    method Consume() returns (c: Option<char>)
      requires Valid()
      modifies this
      ensures Valid()
      ensures c == old(Peek())
      ensures pos == if old(pos) < |input| then old(pos) + 1 else old(pos)
    {
      c := Peek();
      if c.Some? {
        pos := pos + 1;
      }
    }

    /**
     * `lex`: the tokens of the rest of the input, in order, as `LexFrom` specifies them, in a fresh stream;
     * or the failure of the first character that starts no token.
     */
    method Lex(includeWhitespace: bool) returns (r: Result<LexStream>)
      requires Valid()
      modifies this
      ensures r.Ok? <==> LexFrom(input, parseMode, includeWhitespace, old(pos)).Ok?
      ensures r.Ok? ==> fresh(r.value) && r.value.tokens == LexFrom(input, parseMode, includeWhitespace, old(pos)).value && r.value.pos == 0
      ensures r.Ok? ==> pos == |input|
      ensures r.Fail? ==> r.thrown == LexFrom(input, parseMode, includeWhitespace, old(pos)).thrown
    {
      var builder: seq<Token> := [];
      assert forall ts: seq<Token> :: [] + ts == ts;
      while pos < |input|
        invariant Valid()
        invariant Prepend(builder, LexFrom(input, parseMode, includeWhitespace, pos)) == LexFrom(input, parseMode, includeWhitespace, old(pos))
        decreases |input| - pos
      {
        ghost var currPos := pos;
        var nextToken :- NextToken(includeWhitespace);
        PrependTwice(builder, OptionToSeq(nextToken), LexFrom(input, parseMode, includeWhitespace, pos));
        builder := builder + OptionToSeq(nextToken);
      }
      var stream := new LexStream(builder);
      return Ok(stream);
    }

    /** The body of `lex`'s loop: read one character and the token it starts, as `Step` specifies. */
    method NextToken(includeWhitespace: bool) returns (r: Result<Option<Token>>)
      requires Valid() && pos < |input|
      modifies this
      ensures Valid()
      ensures Step(input, parseMode, includeWhitespace, old(pos)) == if r.Ok? then Ok((r.value, pos)) else Fail(r.thrown)
    {
      var currPos := pos;
      var next := Consume();
      var c := next.value;
      if c == '[' {
        return Ok(Some(CharToken(c, currPos, LSQUARE)));
      } else if c == ']' {
        return Ok(Some(CharToken(c, currPos, RSQUARE)));
      } else if c == '(' {
        return Ok(Some(CharToken(c, currPos, LPARENS)));
      } else if c == ')' {
        return Ok(Some(CharToken(c, currPos, RPARENS)));
      } else if c == ',' {
        return Ok(Some(CharToken(c, currPos, SEP)));
      } else if c == '*' {
        return Ok(Some(CharToken(c, currPos, WILDCARD)));
      } else if IsJavaIdentifierStart(c) {
        var t :- LexIdentifier(c, currPos);
        assert [c] + input[currPos + 1..pos] == input[currPos..pos];
        return Ok(Some(t));
      } else if IsDigit(c) {
        var t :- LexInt(c, currPos);
        assert [c] + input[currPos + 1..pos] == input[currPos..pos];
        return Ok(Some(t));
      } else if IsWhitespace(c) {
        if includeWhitespace {
          var t := LexWhitespace(c, currPos);
          assert [c] + input[currPos + 1..pos] == input[currPos..pos];
          return Ok(Some(t));
        } else {
          return Ok(None);
        }
      } else if c == ':' {
        if parseMode == DECLARATION {
          return Ok(Some(CharToken(c, currPos, SUBTYPE)));
        } else {
          return Fail(ParsingError("Invalid token : at " + IntToString(currPos)));
        }
      } else if c == '<' {
        if parseMode == DECLARATION && Peek() == Some(':') {
          var _ := Consume();
          return Ok(Some(Token("<:", currPos, pos, STRICTSUBTYPE)));
        } else {
          return Fail(ParsingError("Invalid token < at " + IntToString(currPos)));
        }
      } else {
        return Fail(ParsingError(InvalidToken(c, currPos)));
      }
    }

    /** `lexIdentifier`: the longest name from `start` on, typed by `KeywordType`. */
    method LexIdentifier(start: char, startIdx: int) returns (r: Result<Token>)
      requires Valid()
      modifies this
      ensures Valid()
      ensures r.Ok? <==> IsJavaIdentifierStart(start)
      ensures r.Fail? ==> pos == old(pos)
      ensures r.Fail? ==> r.thrown == ParsingError("Invalid start to identifier " + [start] + " at " + IntToString(startIdx))
      ensures r.Ok? ==> pos == RunEnd(input, old(pos), IdentifierPart)
      ensures r.Ok? ==> r.value == Token([start] + input[old(pos)..pos], startIdx, startIdx + 1 + pos - old(pos), KeywordType([start] + input[old(pos)..pos]))
    {
      if !IsJavaIdentifierStart(start) {
        return Fail(ParsingError("Invalid start to identifier " + [start] + " at " + IntToString(startIdx)));
      }
      var next := Peek();
      var name := [start];
      while next.Some? && IsJavaIdentifierPart(next.value)
        invariant Valid() && old(pos) <= pos && next == Peek()
        invariant name == [start] + input[old(pos)..pos]
        invariant forall i :: old(pos) <= i < pos ==> IsJavaIdentifierPart(input[i])
        decreases |input| - pos
      {
        name := name + [next.value];
        var _ := Consume();
        next := Peek();
      }
      RunEndUnique(input, old(pos), pos, IdentifierPart);
      return Ok(Token(name, startIdx, startIdx + |name|, KeywordType(name)));
    }

    /** `lexInt`: the longest run of digits from `start` on. */
    method LexInt(start: char, startIdx: int) returns (r: Result<Token>)
      requires Valid()
      modifies this
      ensures Valid()
      ensures r.Ok? <==> IsDigit(start)
      ensures r.Fail? ==> pos == old(pos)
      ensures r.Fail? ==> r.thrown == ParsingError("Expected Int in decimal base, got " + [start] + " at " + IntToString(startIdx))
      ensures r.Ok? ==> pos == RunEnd(input, old(pos), Digit)
      ensures r.Ok? ==> r.value == Token([start] + input[old(pos)..pos], startIdx, startIdx + 1 + pos - old(pos), INTLITERAL)
    {
      if !IsDigit(start) {
        return Fail(ParsingError("Expected Int in decimal base, got " + [start] + " at " + IntToString(startIdx)));
      }
      var next := Peek();
      var result := [start];
      while next.Some? && IsDigit(next.value)
        invariant Valid() && old(pos) <= pos && next == Peek()
        invariant result == [start] + input[old(pos)..pos]
        invariant forall i :: old(pos) <= i < pos ==> IsDigit(input[i])
        decreases |input| - pos
      {
        result := result + [next.value];
        var _ := Consume();
        next := Peek();
      }
      RunEndUnique(input, old(pos), pos, Digit);
      return Ok(Token(result, startIdx, startIdx + |result|, INTLITERAL));
    }

    /** `lexWhitespace`: the longest run of whitespace from `start` on (`start` itself is not checked). */
    method LexWhitespace(start: char, startIdx: int) returns (t: Token)
      requires Valid()
      modifies this
      ensures Valid()
      ensures pos == RunEnd(input, old(pos), Space)
      ensures t == Token([start] + input[old(pos)..pos], startIdx, startIdx + 1 + pos - old(pos), WHITESPACE)
    {
      var next := Peek();
      var result := [start];
      while next.Some? && IsWhitespace(next.value)
        invariant Valid() && old(pos) <= pos && next == Peek()
        invariant result == [start] + input[old(pos)..pos]
        invariant forall i :: old(pos) <= i < pos ==> IsWhitespace(input[i])
        decreases |input| - pos
      {
        result := result + [next.value];
        var _ := Consume();
        next := Peek();
      }
      RunEndUnique(input, old(pos), pos, Space);
      return Token(result, startIdx, startIdx + |result|, WHITESPACE);
    }
  }
}
