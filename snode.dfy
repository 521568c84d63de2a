/**
 * The syntax tree the parser builds: argument lists and declaration lists at the top, shape-function
 * calls, identifiers (with the declaration information resolved for them), shape literals, integer
 * literals and wildcards. Every node records the offsets `[startIdx, endIdx)` of the text it came from.
 */
module SNodes {
  import opened Wrappers

  /** The inferred class of an identifier, wildcard or call. */
  datatype DataType = SHAPE | DIM | ERROR

  /** `STypeIdentifier`: a name, its data type if known, and the bound, strictness and scope of its declaration. */
  datatype Identifier = Identifier(
    name: string, dataType: Option<DataType>, startIdx: int, endIdx: int,
    upperBound: Option<STypeNode>, isStrictBound: bool, scopeId: Option<int>)

  datatype FunctionIdentifier = FunctionIdentifier(name: string, startIdx: int, endIdx: int)

  /** `STypeNode`. */
  datatype STypeNode =
    | SFunctionCall(fn: FunctionIdentifier, arguments: ArgumentList, dataType: Option<DataType>, startIdx: int, endIdx: int)
    | IdentifierNode(id: Identifier)
    | ShapeLiteral(dims: seq<STypeNode>, startIdx: int, endIdx: int)
    | IntLiteral(value: int, startIdx: int, endIdx: int)
    | Wildcard(dataType: Option<DataType>, startIdx: int, endIdx: int)

  datatype ArgumentList = ArgumentList(arguments: seq<STypeNode>, startIdx: int, endIdx: int)

  /** A declared shape parameter and the offsets of the whole declaration. */
  datatype STypeDeclaration = STypeDeclaration(id: Identifier, startIdx: int, endIdx: int)

  datatype DeclarationList = DeclarationList(declarations: seq<STypeDeclaration>, startIdx: int, endIdx: int)

  /** The two top-level nodes. */
  datatype SNode = Arguments(arguments: ArgumentList) | Declarations(declarations: DeclarationList)

  /** `dataType`: fixed for shape literals (a shape) and integer literals (a dim), recorded for the others. */
  function DataTypeOf(n: STypeNode): (d: Option<DataType>)
    ensures n.ShapeLiteral? ==> d == Some(SHAPE)
    ensures n.IntLiteral? ==> d == Some(DIM)
    ensures n.IdentifierNode? ==> d == n.id.dataType
  {
    match n
    case SFunctionCall(_, _, d, _, _) => d
    case IdentifierNode(id) => id.dataType
    case ShapeLiteral(_, _, _) => Some(SHAPE)
    case IntLiteral(_, _, _) => Some(DIM)
    case Wildcard(d, _, _) => d
  }

  function Start(n: STypeNode): int
  {
    if n.IdentifierNode? then n.id.startIdx else n.startIdx
  }

  function End(n: STypeNode): int
  {
    if n.IdentifierNode? then n.id.endIdx else n.endIdx
  }
}
