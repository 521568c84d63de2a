/**
 * The translation of parsed syntax trees into STypes: shape positions give `Shape` values, dim positions
 * `Dim` values, and the node's data type picks between them where the node itself does not. A node of the
 * wrong kind, or an identifier whose bound or scope was never resolved, makes the translation throw.
 */
module ASTTranslate {
  import opened Wrappers
  import opened STypes
  import opened SNodes

  const ShapeBaseTypeName: string := "Shape"
  const DimBaseTypeName: string := "Dim"

  /** What `!!` throws on null. */
  function NullDereference(): Thrown
  {
    Thrown("NullPointerException", "")
  }

  function DimPassedAsShape(): Thrown
  {
    Thrown("Exception", "Passed dim-typed argument to STypeNode.toShapeType")
  }

  function ShapePassedAsDim(): Thrown
  {
    Thrown("Exception", "Passed shape-typed argument to STypeNode.toDimType")
  }

  /** The value an identifier or wildcard of unknown data type stands for. */
  function NotInferred(): SType
  {
    ErrorUnknownClass(STypeFailure("Datatype not inferred"))
  }

  /** `toShapeType`: a call, a shape literal, a wildcard or a shape identifier; what it yields is a well-kinded shape. */
  function ToShapeType(n: STypeNode): (r: Result<SType>)
    ensures r.Ok? ==> IsShape(r.value) && WellKinded(r.value)
    ensures n.IntLiteral? ==> r == Fail(DimPassedAsShape())
    decreases n, 1
  {
    match n
    case SFunctionCall(fn, arguments, _, _, _) =>
      var args :- ToSTypes(arguments.arguments);
      Ok(ShapeFunctionCall(fn.name, args, None))
    case ShapeLiteral(dims, _, _) =>
      var ds :- ToDimTypes(dims);
      Ok(DimShape(ds, None))
    case Wildcard(_, _, _) => Ok(DefaultWildcardShape)
    case IdentifierNode(id) =>
      if id.name == ShapeBaseTypeName then Ok(DefaultWildcardShape)
      else if id.upperBound.None? then Fail(NullDereference())
      else
        var bound :- ToShapeType(id.upperBound.value);
        if id.scopeId.None? then Fail(NullDereference())
        else Ok(SymbolicShape(id.name, bound, id.isStrictBound, id.scopeId.value, None))
    case IntLiteral(_, _, _) => Fail(DimPassedAsShape())
  }

  /** `toDimType`: an integer literal, a wildcard or a dim identifier; what it yields is a well-kinded dim. */
  function ToDimType(n: STypeNode): (r: Result<SType>)
    ensures r.Ok? ==> IsDim(r.value) && WellKinded(r.value)
    ensures (n.SFunctionCall? || n.ShapeLiteral?) ==> r == Fail(ShapePassedAsDim())
    decreases n, 1
  {
    match n
    case IntLiteral(v, _, _) => Ok(NumericDim(v, None))
    case Wildcard(_, _, _) => Ok(DefaultWildcardDim)
    case IdentifierNode(id) =>
      if id.name == DimBaseTypeName then Ok(DefaultWildcardDim)
      else if id.upperBound.None? then Fail(NullDereference())
      else
        var bound :- ToDimType(id.upperBound.value);
        if id.scopeId.None? then Fail(NullDereference())
        else Ok(SymbolicDim(id.name, bound, id.isStrictBound, id.scopeId.value, None))
    case _ => Fail(ShapePassedAsDim())
  }

  /**
   * `toSType`: literals and calls by their own kind (a call is taken for a shape), identifiers and wildcards
   * by their data type; one whose data type is unknown or an error stands for an unknown-class error.
   * The result has the kind the node's data type names.
   */
  function ToSType(n: STypeNode): (r: Result<SType>)
    ensures r.Ok? ==> WellKinded(r.value)
    ensures r.Ok? && (n.SFunctionCall? || DataTypeOf(n) == Some(DataType.SHAPE)) ==> IsShape(r.value)
    ensures r.Ok? && !n.SFunctionCall? && DataTypeOf(n) == Some(DataType.DIM) ==> IsDim(r.value)
    ensures (n.IdentifierNode? || n.Wildcard?) && DataTypeOf(n) != Some(DataType.SHAPE) && DataTypeOf(n) != Some(DataType.DIM)
            ==> r == Ok(NotInferred())
    decreases n, 2
  {
    match n
    case ShapeLiteral(_, _, _) => ToShapeType(n)
    case IntLiteral(_, _, _) => ToDimType(n)
    case SFunctionCall(_, _, _, _, _) => ToShapeType(n)
    case _ =>
      match DataTypeOf(n)
      case Some(SHAPE) => ToShapeType(n)
      case Some(DIM) => ToDimType(n)
      case _ => Ok(NotInferred())
  }

  /** `map { it.toSType() }`: all elements translate, each to a well-kinded value, or the first failure is thrown. */
  function ToSTypes(ns: seq<STypeNode>): (r: Result<seq<SType>>)
    ensures r.Ok? ==> |r.value| == |ns| && forall i :: 0 <= i < |r.value| ==> WellKinded(r.value[i])
    decreases ns
  {
    if ns == [] then Ok([])
    else
      var head :- ToSType(ns[0]);
      var tail :- ToSTypes(ns[1..]);
      Ok([head] + tail)
  }

  /** `map { it.toDimType() }`: all elements translate, each to a well-kinded dim, or the first failure is thrown. */
  function ToDimTypes(ns: seq<STypeNode>): (r: Result<seq<SType>>)
    ensures r.Ok? ==> |r.value| == |ns| && forall i :: 0 <= i < |r.value| ==> IsDim(r.value[i]) && WellKinded(r.value[i])
    decreases ns
  {
    if ns == [] then Ok([])
    else
      var head :- ToDimType(ns[0]);
      var tail :- ToDimTypes(ns[1..]);
      Ok([head] + tail)
  }

  /** `STypeDeclaration.toSType`: the declared identifier's value. */
  function DeclarationToSType(d: STypeDeclaration): Result<SType>
  {
    ToSType(IdentifierNode(d.id))
  }

  /** `DeclarationList.toSType` maps each declaration; written over the declarations' values. */
  function DeclarationsToSTypes(ds: seq<STypeDeclaration>): (r: Result<seq<SType>>)
    ensures r.Ok? ==> |r.value| == |ds|
  {
    if ds == [] then Ok([])
    else
      var head :- DeclarationToSType(ds[0]);
      var tail :- DeclarationsToSTypes(ds[1..]);
      Ok([head] + tail)
  }

  /** `ArgumentList.toSType`: a single argument stands alone, any other number becomes a tuple. */
  function ArgumentListToSType(a: ArgumentList): Result<SType>
  {
    if |a.arguments| == 1 then ToSType(a.arguments[0])
    else
      var ts :- ToSTypes(a.arguments);
      Ok(STypeTuple(ts, None))
  }

  /** `DeclarationList.toSType`: a single declaration stands alone, any other number becomes a tuple. */
  function DeclarationListToSType(l: DeclarationList): Result<SType>
  {
    if |l.declarations| == 1 then DeclarationToSType(l.declarations[0])
    else
      var ts :- DeclarationsToSTypes(l.declarations);
      Ok(STypeTuple(ts, None))
  }

  /** `ArgumentList.toSTypes`. */
  function ArgumentListToSTypes(a: ArgumentList): Result<seq<SType>>
  {
    ToSTypes(a.arguments)
  }

  // ---------------------------------------------------------------------------------------------
  // Properties

  /**
   * A list translates element by element, in order: it succeeds exactly when every element does, its i-th
   * value is the i-th element's, and otherwise it throws what the first failing element throws.
   */
  lemma {:induction false} TranslatesEachArgument(ns: seq<STypeNode>)
    ensures ToSTypes(ns).Ok? <==> forall i :: 0 <= i < |ns| ==> ToSType(ns[i]).Ok?
    ensures ToSTypes(ns).Ok? ==> forall i :: 0 <= i < |ns| ==> ToSType(ns[i]) == Ok(ToSTypes(ns).value[i])
    ensures ToSTypes(ns).Fail? ==> exists i :: 0 <= i < |ns| && ToSType(ns[i]) == Fail(ToSTypes(ns).thrown) &&
                                              forall j :: 0 <= j < i ==> ToSType(ns[j]).Ok?
    decreases ns
  {
    if ns != [] {
      TranslatesEachArgument(ns[1..]);
      assert forall i :: 1 <= i < |ns| ==> ns[i] == ns[1..][i - 1];
      if ToSType(ns[0]).Ok? && ToSTypes(ns[1..]).Fail? {
        var i :| 0 <= i < |ns[1..]| && ToSType(ns[1..][i]) == Fail(ToSTypes(ns[1..]).thrown) &&
                 forall j :: 0 <= j < i ==> ToSType(ns[1..][j]).Ok?;
        assert ToSType(ns[i + 1]) == Fail(ToSTypes(ns).thrown) && forall j :: 0 <= j < i + 1 ==> ToSType(ns[j]).Ok?;
      }
    }
  }

  /** The same for the dims of a shape literal, each translated as a dim. */
  lemma {:induction false} TranslatesEachDim(ns: seq<STypeNode>)
    ensures ToDimTypes(ns).Ok? <==> forall i :: 0 <= i < |ns| ==> ToDimType(ns[i]).Ok?
    ensures ToDimTypes(ns).Ok? ==> forall i :: 0 <= i < |ns| ==> ToDimType(ns[i]) == Ok(ToDimTypes(ns).value[i])
    ensures ToDimTypes(ns).Fail? ==> exists i :: 0 <= i < |ns| && ToDimType(ns[i]) == Fail(ToDimTypes(ns).thrown) &&
                                                forall j :: 0 <= j < i ==> ToDimType(ns[j]).Ok?
    decreases ns
  {
    if ns != [] {
      TranslatesEachDim(ns[1..]);
      assert forall i :: 1 <= i < |ns| ==> ns[i] == ns[1..][i - 1];
      if ToDimType(ns[0]).Ok? && ToDimTypes(ns[1..]).Fail? {
        var i :| 0 <= i < |ns[1..]| && ToDimType(ns[1..][i]) == Fail(ToDimTypes(ns[1..]).thrown) &&
                 forall j :: 0 <= j < i ==> ToDimType(ns[1..][j]).Ok?;
        assert ToDimType(ns[i + 1]) == Fail(ToDimTypes(ns).thrown) && forall j :: 0 <= j < i + 1 ==> ToDimType(ns[j]).Ok?;
      }
    }
  }

  /** The same for the declarations of a declaration list. */
  lemma {:induction false} TranslatesEachDeclaration(ds: seq<STypeDeclaration>)
    ensures DeclarationsToSTypes(ds).Ok? <==> forall i :: 0 <= i < |ds| ==> DeclarationToSType(ds[i]).Ok?
    ensures DeclarationsToSTypes(ds).Ok? ==> forall i :: 0 <= i < |ds| ==> DeclarationToSType(ds[i]) == Ok(DeclarationsToSTypes(ds).value[i])
    decreases ds
  {
    if ds != [] {
      TranslatesEachDeclaration(ds[1..]);
      assert forall i :: 1 <= i < |ds| ==> ds[i] == ds[1..][i - 1];
    }
  }

  /** A shape literal becomes the dim shape of the same rank whose i-th dim is its i-th entry taken as a dim. */
  lemma ShapeLiteralsKeepRank(dims: seq<STypeNode>, startIdx: int, endIdx: int)
    requires ToShapeType(ShapeLiteral(dims, startIdx, endIdx)).Ok?
    ensures var s := ToShapeType(ShapeLiteral(dims, startIdx, endIdx)).value;
      s.DimShape? && s.err.None? && |s.dims| == |dims| && forall i :: 0 <= i < |dims| ==> ToDimType(dims[i]) == Ok(s.dims[i])
  {
    TranslatesEachDim(dims);
  }

  /** In a shape position, a wildcard and the base type name `Shape` both stand for the default wildcard shape. */
  lemma ShapeLeaves(n: STypeNode)
    ensures n.Wildcard? ==> ToShapeType(n) == Ok(DefaultWildcardShape)
    ensures n.IdentifierNode? && n.id.name == ShapeBaseTypeName ==> ToShapeType(n) == Ok(DefaultWildcardShape)
  {
  }

  /**
   * Any other identifier becomes a shape symbol of its name, carrying its translated bound, its strictness and
   * its scope id. The bound is dereferenced and translated before the scope id is dereferenced, so a missing
   * bound, a failing bound and a missing scope id fail in that order.
   */
  lemma ShapeIdentifiers(n: STypeNode)
    requires n.IdentifierNode? && n.id.name != ShapeBaseTypeName
    ensures n.id.upperBound.None? ==> ToShapeType(n) == Fail(NullDereference())
    ensures n.id.upperBound.Some? && ToShapeType(n.id.upperBound.value).Fail? ==>
      ToShapeType(n) == Fail(ToShapeType(n.id.upperBound.value).thrown)
    ensures n.id.upperBound.Some? && ToShapeType(n.id.upperBound.value).Ok? && n.id.scopeId.None? ==>
      ToShapeType(n) == Fail(NullDereference())
    ensures n.id.upperBound.Some? && ToShapeType(n.id.upperBound.value).Ok? && n.id.scopeId.Some? ==>
      ToShapeType(n) == Ok(SymbolicShape(n.id.name, ToShapeType(n.id.upperBound.value).value, n.id.isStrictBound, n.id.scopeId.value, None))
  {
  }

  /** In a dim position, an integer literal becomes the number it holds; a wildcard and the base type name `Dim` the default wildcard dim. */
  lemma DimLeaves(n: STypeNode)
    ensures n.IntLiteral? ==> ToDimType(n) == Ok(NumericDim(n.value, None))
    ensures n.Wildcard? ==> ToDimType(n) == Ok(DefaultWildcardDim)
    ensures n.IdentifierNode? && n.id.name == DimBaseTypeName ==> ToDimType(n) == Ok(DefaultWildcardDim)
  {
  }

  /** Any other identifier becomes a dim symbol with its translated bound, strictness and scope id, failing as for shapes. */
  lemma DimIdentifiers(n: STypeNode)
    requires n.IdentifierNode? && n.id.name != DimBaseTypeName
    ensures n.id.upperBound.None? ==> ToDimType(n) == Fail(NullDereference())
    ensures n.id.upperBound.Some? && ToDimType(n.id.upperBound.value).Fail? ==>
      ToDimType(n) == Fail(ToDimType(n.id.upperBound.value).thrown)
    ensures n.id.upperBound.Some? && ToDimType(n.id.upperBound.value).Ok? && n.id.scopeId.None? ==>
      ToDimType(n) == Fail(NullDereference())
    ensures n.id.upperBound.Some? && ToDimType(n.id.upperBound.value).Ok? && n.id.scopeId.Some? ==>
      ToDimType(n) == Ok(SymbolicDim(n.id.name, ToDimType(n.id.upperBound.value).value, n.id.isStrictBound, n.id.scopeId.value, None))
  {
  }

  /** A call becomes a call of the same name on the translated arguments, in order. */
  lemma CallsKeepTheirArguments(fn: FunctionIdentifier, arguments: ArgumentList, dataType: Option<DataType>, startIdx: int, endIdx: int)
    requires ToShapeType(SFunctionCall(fn, arguments, dataType, startIdx, endIdx)).Ok?
    ensures var c := ToShapeType(SFunctionCall(fn, arguments, dataType, startIdx, endIdx)).value;
      c.ShapeFunctionCall? && c.name == fn.name && |c.args| == |arguments.arguments| &&
      forall i :: 0 <= i < |c.args| ==> ToSType(arguments.arguments[i]) == Ok(c.args[i])
  {
    TranslatesEachArgument(arguments.arguments);
  }

  /** An argument list of any length but one becomes a tuple of its arguments' values, of the same length and order. */
  lemma ArgumentListsBecomeTuples(a: ArgumentList)
    requires |a.arguments| != 1 && ArgumentListToSType(a).Ok?
    ensures var t := ArgumentListToSType(a).value;
      t.STypeTuple? && t.err.None? && |t.types| == |a.arguments| &&
      forall i :: 0 <= i < |a.arguments| ==> ToSType(a.arguments[i]) == Ok(t.types[i])
  {
    TranslatesEachArgument(a.arguments);
  }

  /** A declaration list of any length but one becomes a tuple of its declarations' values, of the same length and order. */
  lemma DeclarationListsBecomeTuples(l: DeclarationList)
    requires |l.declarations| != 1 && DeclarationListToSType(l).Ok?
    ensures var t := DeclarationListToSType(l).value;
      t.STypeTuple? && t.err.None? && |t.types| == |l.declarations| &&
      forall i :: 0 <= i < |l.declarations| ==> DeclarationToSType(l.declarations[i]) == Ok(t.types[i])
  {
    TranslatesEachDeclaration(l.declarations);
  }

  /** A single argument translates to its own value, never wrapped in a tuple. */
  lemma SingleArgumentsStandAlone(a: ArgumentList)
    requires |a.arguments| == 1
    ensures ArgumentListToSType(a) == ToSType(a.arguments[0])
    ensures ArgumentListToSType(a).Ok? ==> !ArgumentListToSType(a).value.STypeTuple?
  {
  }
}
