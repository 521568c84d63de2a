/**
 * `serialize`: the textual form of an SType used in diagnostics and generated annotations. Lists are
 * joined by "," without spaces, dim shapes are bracketed, calls keep their name and parentheses,
 * tuples are left unbracketed, symbols are written by name alone (bounds are dropped), and error
 * values cannot be serialised.
 */
module Serialization {
  import opened Wrappers
  import opened Strings
  import opened STypes
  import opened STypeUtils
  import opened Generics

  /** What serialising an error value throws: an `STypeCompilerException` with an empty message. */
  function SerializationFailure(): Thrown
  {
    Thrown("STypeCompilerException", "")
  }

  function Serialize(t: SType): (r: Result<string>)
    decreases t, 1
  {
    match t
    case STypeTuple(ts, _) => SerializeList(ts)
    case SymbolicDim(s, _, _, _, _) => Ok(s)
    case SymbolicShape(s, _, _, _, _) => Ok(s)
    case ShapeFunctionCall(n, args, _) =>
      var a :- SerializeList(args);
      Ok(n + "(" + a + ")")
    case DimShape(ds, _) =>
      var a :- SerializeList(ds);
      Ok("[" + a + "]")
    case WildcardDim(_) => Ok(Show(t))
    case WildcardShape(_) => Ok(Show(t))
    case NumericDim(_, _) => Ok(Show(t))
    case ErrorDim(_) => Fail(SerializationFailure())
    case ErrorShape(_) => Fail(SerializationFailure())
    case ErrorUnknownClass(_) => Fail(SerializationFailure())
  }

  /** `serializeList`: every element serialised, in order, then joined by ",". */
  function SerializeList(ts: seq<SType>): (r: Result<string>)
    decreases ts, 2
  {
    var parts :- SerializeAll(ts);
    Ok(Join(parts, ","))
  }

  /** The elementwise serialisations; the first failure, in order, is the result. */
  function SerializeAll(ts: seq<SType>): (r: Result<seq<string>>)
    ensures r.Ok? ==> |r.value| == |ts| && forall i :: 0 <= i < |ts| ==> Serialize(ts[i]) == Ok(r.value[i])
    decreases ts, 0
  {
    if ts == [] then Ok([])
    else
      var p :- Serialize(ts[0]);
      var rest :- SerializeAll(ts[1..]);
      assert forall i :: 1 <= i < |ts| ==> ts[i] == ts[1..][i - 1];
      Ok([p] + rest)
  }

  // ---------------------------------------------------------------------------------------------
  // Properties

  /** Serialisation fails exactly when an error value is reachable through dims, call arguments or tuple types. */
  lemma {:induction false} SerializeSucceedsIff(t: SType)
    ensures Serialize(t).Ok? <==> !ContainsErrors(t)
    ensures Serialize(t).Fail? ==> Serialize(t).thrown == SerializationFailure()
    decreases t, 1
  {
    match t
    case STypeTuple(ts, _) => SerializeAllSucceedsIff(ts);
    case ShapeFunctionCall(_, args, _) => SerializeAllSucceedsIff(args);
    case DimShape(ds, _) => SerializeAllSucceedsIff(ds);
    case SymbolicDim(_, _, _, _, _) =>
    case SymbolicShape(_, _, _, _, _) =>
    case WildcardDim(_) =>
    case WildcardShape(_) =>
    case NumericDim(_, _) =>
    case ErrorDim(_) =>
    case ErrorShape(_) =>
    case ErrorUnknownClass(_) =>
  }

  lemma {:induction false} SerializeAllSucceedsIff(ts: seq<SType>)
    ensures SerializeAll(ts).Ok? <==> forall i :: 0 <= i < |ts| ==> !ContainsErrors(ts[i])
    ensures SerializeAll(ts).Fail? ==> SerializeAll(ts).thrown == SerializationFailure()
    ensures SerializeList(ts).Ok? <==> SerializeAll(ts).Ok?
    ensures SerializeList(ts).Fail? ==> SerializeList(ts).thrown == SerializationFailure()
    decreases ts, 0
  {
    if ts != [] {
      SerializeSucceedsIff(ts[0]);
      SerializeAllSucceedsIff(ts[1..]);
      assert forall i :: 1 <= i < |ts| ==> ts[i] == ts[1..][i - 1];
    }
  }

  /** A symbol is written as its bare name, whatever its bound. */
  lemma SymbolSerialization(t: SType)
    requires IsSymbolic(t)
    ensures Serialize(t) == Ok(t.symbol)
  {
  }

  /** Wildcards are written as their class names "Dim" and "Shape", and numeric dims as their decimal value. */
  lemma LeafSerialization(v: int, e: Option<STypeException>)
    ensures Serialize(WildcardDim(e)) == Ok("Dim")
    ensures Serialize(WildcardShape(e)) == Ok("Shape")
    ensures Serialize(NumericDim(v, e)) == Ok(IntToString(v))
  {
  }

  // ---------------------------------------------------------------------------------------------
  // Examples (SerializationTest)

  function Num(v: int): SType
  {
    NumericDim(v, None)
  }

  function DimSym(name: string): SType
  {
    SymbolicDim(name, DefaultWildcardDim, false, 0, None)
  }

  lemma Numerals()
    ensures Serialize(Num(1)) == Ok("1") && Serialize(Num(3)) == Ok("3") && Serialize(Num(4)) == Ok("4")
  {
    assert DigitChar(1) == '1' && DigitChar(3) == '3' && DigitChar(4) == '4';
  }

  lemma StringAssoc(a: string, b: string, c: string)
    ensures a + (b + c) == (a + b) + c
  {
  }

  /** `SerializeList` on lists of one to four serialisable elements. */
  lemma SerializeList1(a: SType, p: string)
    requires Serialize(a) == Ok(p)
    ensures SerializeAll([a]) == Ok([p])
    ensures SerializeList([a]) == Ok(p)
  {
    assert [a][1..] == [];
    AppendEmpty([p]);
  }

  lemma SerializeList2(a: SType, b: SType, p: string, q: string)
    requires Serialize(a) == Ok(p) && Serialize(b) == Ok(q)
    ensures SerializeAll([a, b]) == Ok([p, q])
    ensures SerializeList([a, b]) == Ok(p + "," + q)
  {
    SerializeList1(b, q);
    assert [a, b][1..] == [b];
    assert [p] + [q] == [p, q];
    assert [p, q][1..] == [q];
  }

  lemma SerializeList3(a: SType, b: SType, c: SType, p: string, q: string, r: string)
    requires Serialize(a) == Ok(p) && Serialize(b) == Ok(q) && Serialize(c) == Ok(r)
    ensures SerializeAll([a, b, c]) == Ok([p, q, r])
    ensures SerializeList([a, b, c]) == Ok(p + "," + q + "," + r)
  {
    SerializeList2(b, c, q, r);
    assert [a, b, c][1..] == [b, c];
    assert [p] + [q, r] == [p, q, r];
    assert [p, q, r][1..] == [q, r];
    assert Join([p, q, r], ",") == p + "," + (q + "," + r);
    StringAssoc(p + ",", q + ",", r);
    StringAssoc(p + ",", q, ",");
  }

  lemma SerializeList4(a: SType, b: SType, c: SType, d: SType, p: string, q: string, r: string, s: string)
    requires Serialize(a) == Ok(p) && Serialize(b) == Ok(q) && Serialize(c) == Ok(r) && Serialize(d) == Ok(s)
    ensures SerializeList([a, b, c, d]) == Ok(p + "," + q + "," + r + "," + s)
  {
    SerializeList3(b, c, d, q, r, s);
    assert [a, b, c, d][1..] == [b, c, d];
    assert [p] + [q, r, s] == [p, q, r, s];
    assert [p, q, r, s][1..] == [q, r, s];
    assert Join([p, q, r, s], ",") == p + "," + (q + "," + r + "," + s);
    var x := p + "," + q + "," + r;
    StringAssoc(p + ",", q + "," + r + ",", s);
    StringAssoc(p + ",", q + "," + r, ",");
    StringAssoc(p + ",", q + ",", r);
    StringAssoc(p + ",", q, ",");
  }

  lemma NumericDimShapeExample()
    ensures Serialize(DimShape([Num(3), Num(4), Num(1)], None)) == Ok("[3,4,1]")
  {
    Numerals();
    SerializeList3(Num(3), Num(4), Num(1), "3", "4", "1");
    assert "3" + "," + "4" + "," + "1" == "3,4,1";
    assert "[" + "3,4,1" + "]" == "[3,4,1]";
  }

  lemma MixedDimShapeExample()
    ensures Serialize(DimShape([Num(3), DimSym("D"), Num(1)], None)) == Ok("[3,D,1]")
  {
    Numerals();
    SerializeList3(Num(3), DimSym("D"), Num(1), "3", "D", "1");
    assert "3" + "," + "D" + "," + "1" == "3,D,1";
    assert "[" + "3,D,1" + "]" == "[3,D,1]";
  }

  lemma MatmulOperands()
    ensures Serialize(DimShape([DimSym("A"), Num(4)], None)) == Ok("[A,4]")
    ensures Serialize(DimShape([Num(4), DimSym("B")], None)) == Ok("[4,B]")
  {
    Numerals();
    SerializeList2(DimSym("A"), Num(4), "A", "4");
    assert "A" + "," + "4" == "A,4" && "[" + "A,4" + "]" == "[A,4]";
    SerializeList2(Num(4), DimSym("B"), "4", "B");
    assert "4" + "," + "B" == "4,B" && "[" + "4,B" + "]" == "[4,B]";
  }

  lemma CallExample()
    ensures Serialize(ShapeFunctionCall("matmul", [DimShape([DimSym("A"), Num(4)], None), DimShape([Num(4), DimSym("B")], None)], None)) ==
      Ok("matmul([A,4],[4,B])")
  {
    MatmulOperands();
    SerializeList2(DimShape([DimSym("A"), Num(4)], None), DimShape([Num(4), DimSym("B")], None), "[A,4]", "[4,B]");
    assert "[A,4]" + "," + "[4,B]" == "[A,4],[4,B]";
    assert "matmul" + "(" + "[A,4],[4,B]" + ")" == "matmul([A,4],[4,B])";
  }

  lemma TupleExample()
    ensures var call := ShapeFunctionCall("matmul", [DimShape([DimSym("A"), Num(4)], None), DimShape([Num(4), DimSym("B")], None)], None);
      Serialize(STypeTuple([DimShape([Num(3), DimSym("D"), Num(1)], None), call, DimSym("C"), Num(4)], None)) ==
        Ok("[3,D,1]" + "," + "matmul([A,4],[4,B])" + "," + "C" + "," + "4")
  {
    var call := ShapeFunctionCall("matmul", [DimShape([DimSym("A"), Num(4)], None), DimShape([Num(4), DimSym("B")], None)], None);
    var shape := DimShape([Num(3), DimSym("D"), Num(1)], None);
    CallExample();
    MixedDimShapeExample();
    Numerals();
    SerializeList4(shape, call, DimSym("C"), Num(4), "[3,D,1]", "matmul([A,4],[4,B])", "C", "4");
  }
}
