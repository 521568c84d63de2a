# shapekt in Dafny

shapekt is a Kotlin compiler plugin that gives tensor-typed values symbolic shapes. An annotation
such as `@SType("A: Dim, S: [A, 3]")` declares shape parameters with upper bounds, and the checker
infers, evaluates and compares the shapes of calls. This project models the analysis core of that
system and proves properties of the model:

- **the value model** (`STypes`, `STypeUtils`, `Serialization`, `Strings`): one `SType` datatype with
  the numeric, symbolic, wildcard and error dims; the dim-shape, symbolic, wildcard, call and error
  shapes; tuples and the unknown-class error. It has the system's own custom equality `SEq`, its
  exception kinds with their three levels, `withException`, rank and slicing, and `serialize`;
- **the front end** (`Lexing`, `SNodes`, `DeclarationInfos`, `ParsingSpec`, `Parsing`,
  `ASTTranslate`): the lexer and its token cursor, and the recursive-descent parser with its
  per-parse scope table, both as classes whose methods are proved to compute reference functions.
  Translation of the syntax tree into `SType` values is pure;
- **the two subtype relations** (`AnalysisSubtyper`, `PluginSubtyper`): the analysis subtyper, and
  the host checker's variant with an explicit `strict` flag, kept apart because they disagree;
- **generics and inference** (`Generics`, `Inference`): symbol tests, substitution through
  substitution chains, relaxation of symbols to their bounds, the bound-substitution iterator, and
  the inference of `symbol -> value` maps from argument/constraint pairs;
- **union** (`Attributes`): the least-upper-bound operation on values;
- **shape functions and their evaluation** (`ShapeFunctionUtils`, `DimArithmetic`, `Broadcast`,
  `Concat`, `ConcatOnAxis`, `SliceFunction`, `Flatten`, `Matmul`, `ShapeFunctionRegistry`,
  `Evaluator`): the built-in functions plus, times, broadcast, concat, concatOnAxis, slice, flatten
  and matmul. They sit behind a name-to-implementation registry. The evaluator reduces calls
  innermost first.

Every file is one module, and modules import each other. Kotlin's exceptions become the `Fail` case
of `Result`, carrying the exception's class name and message. Kotlin's `null` becomes `None`.

Where the Kotlin code loops, the model has a method with a loop, proved equal to a reference
function of the same inputs. This covers the bound walks of both subtypers, list subtyping,
following a substitution chain, inference over an iterator, `allBounds`, the argument-error scan,
`conflictingBounds`, the broadcast loop, the lexer and the parser. Where the Kotlin code updates an
object, the model has a class: the token cursor, the lexer, the scope table, the parser, the
bound-substitution iterator and the registry.

## Model

| member | source | states |
|---|---|---|
| STypes.STypeCompilerException | plugin/analysis/src/main/kotlin/shapeTyping/analysis/exceptions/STypeExceptions.kt:30 | an exception of level ERROR that carries exactly the given message |
| STypes.STypeErrorPropagationException | plugin/analysis/src/main/kotlin/shapeTyping/analysis/exceptions/STypeExceptions.kt:33 | level PROPAGATE; the message is the wrapped exception's message, or the default "could not be fully resolved" message when nothing is wrapped |
| STypes.STypeFailure | plugin/analysis/src/main/kotlin/shapeTyping/analysis/exceptions/STypeExceptions.kt:35 | an exception of level ERROR with the given message |
| STypes.STypeStrictModeException | plugin/analysis/src/main/kotlin/shapeTyping/analysis/exceptions/STypeExceptions.kt:36 | an exception of level WARNING with the given message |
| STypes.UnsupportedSTypesException | plugin/analysis/src/main/kotlin/shapeTyping/analysis/exceptions/STypeExceptions.kt:38-40 | level ERROR; the message names the shape function and then lists the JVM classes of the arguments |
| STypes.STypeParsingError | plugin/analysis/src/main/kotlin/shapeTyping/analysis/exceptions/STypeExceptions.kt:42 | an exception of level ERROR with the given message |
| STypes.ShapeFunctionResolutionError | plugin/analysis/src/main/kotlin/shapeTyping/analysis/exceptions/STypeExceptions.kt:43 | an exception of level ERROR with the given message |
| STypes.STypeFunctionError | plugin/compiler-plugin/src/main/kotlin/shapeTyping/plugin/analysis/Utils.kt:19 | keeps the wrapped exception's message and level, and records the call it came from |
| STypes.PropagatesErrorIff | plugin/analysis/src/main/kotlin/shapeTyping/analysis/exceptions/STypeExceptions.kt:45 | a type given error e propagates an error exactly when e has level PROPAGATE |
| STypes.WithException | plugin/analysis/src/main/kotlin/shapeTyping/analysis/SType.kt:13-138 | the result's error is the new exception; it stays a dim or a shape when the input was one; it is the input itself when the input already had that error |
| STypes.WithExceptionOverwrites | plugin/analysis/src/main/kotlin/shapeTyping/analysis/SType.kt:13-138 | a second withException replaces the first: only the error is touched |
| STypes.WithExceptionKeepsEquality | plugin/analysis/src/main/kotlin/shapeTyping/analysis/SType.kt:26-143 | for every class whose equals ignores the error, the new value is equal to the old one |
| STypes.WithExceptionWellKinded | plugin/analysis/src/main/kotlin/shapeTyping/analysis/SType.kt:16-21 | withException keeps a well-kinded type well-kinded: a Shape stays a Shape and a Dim stays a Dim, all the way down |
| STypes.ListEqIff | plugin/analysis/src/main/kotlin/shapeTyping/analysis/SType.kt:27 | two lists are equal exactly when they have the same length and their elements are pairwise equal |
| STypes.SEqReflexive | plugin/analysis/src/main/kotlin/shapeTyping/analysis/SType.kt:26-143 | every type equals itself under the custom equals |
| STypes.ListEqReflexive | plugin/analysis/src/main/kotlin/shapeTyping/analysis/SType.kt:27 | every list equals itself |
| STypes.SEqSymmetric | plugin/analysis/src/main/kotlin/shapeTyping/analysis/SType.kt:26-143 | the custom equals is symmetric |
| STypes.ListEqSymmetric | plugin/analysis/src/main/kotlin/shapeTyping/analysis/SType.kt:27 | list equality is symmetric |
| STypes.SEqTransitive | plugin/analysis/src/main/kotlin/shapeTyping/analysis/SType.kt:26-143 | the custom equals is transitive |
| STypes.ListEqTransitive | plugin/analysis/src/main/kotlin/shapeTyping/analysis/SType.kt:27 | list equality is transitive |
| STypes.SymbolEquality | plugin/analysis/src/main/kotlin/shapeTyping/analysis/SType.kt:53-56 | two symbols of the same kind are equal exactly when their names and scope ids agree; bound, strictness and error do not matter |
| STypes.NumericAndCallEquality | plugin/analysis/src/main/kotlin/shapeTyping/analysis/SType.kt:77-79 | numeric dims are equal exactly when their values are; calls are equal exactly when their names are and their argument lists are equal |
| STypes.WildcardEquality | plugin/analysis/src/main/kotlin/shapeTyping/analysis/SType.kt:59-62 | any two wildcard shapes are equal; two wildcard dims are equal exactly when their errors are, because only the data-class equals applies to them |
| STypes.SEqSameClass | plugin/analysis/src/main/kotlin/shapeTyping/analysis/SType.kt:26-143 | equal values always have the same class |
| STypes.Rank | plugin/analysis/src/main/kotlin/shapeTyping/analysis/SType.kt:84 | the rank is the number of dims |
| STypes.EqualDimShapesSameRank | plugin/analysis/src/main/kotlin/shapeTyping/analysis/SType.kt:84-92 | equal dim shapes have the same rank |
| STypes.SliceToDimList | plugin/analysis/src/main/kotlin/shapeTyping/analysis/SType.kt:100-104 | succeeds exactly when start is in 0 until rank, end is in 0..rank and start <= end; the result has end - start dims; an index outside either range fails its require |
| STypes.Slice | plugin/analysis/src/main/kotlin/shapeTyping/analysis/SType.kt:96-98 | succeeds exactly when sliceToDimList does, and builds an error-free dim shape of those dims |
| STypes.MapTuple | plugin/analysis/src/main/kotlin/shapeTyping/analysis/SType.kt:29 | a tuple of the same length and error, with f applied to each type in order |
| STypes.Level | plugin/analysis/src/main/kotlin/shapeTyping/analysis/exceptions/STypeExceptions.kt:19-43 | the error level each exception class fixes; `PropagatesErrorIff` uses it |
| STypes.ExceptionClassName | plugin/analysis/src/main/kotlin/shapeTyping/analysis/exceptions/STypeExceptions.kt:30-43 | the qualified class name of each exception, as its `toString` prints it |
| STypes.ExceptionToString | plugin/analysis/src/main/kotlin/shapeTyping/analysis/SType.kt:33 | `Throwable.toString()`: the class name, a colon and the message |
| STypes.IsDim | plugin/analysis/src/main/kotlin/shapeTyping/analysis/SType.kt:19-21 | membership of the sealed class `Dim`; `WithException` keeps it |
| STypes.IsShape | plugin/analysis/src/main/kotlin/shapeTyping/analysis/SType.kt:16-18 | membership of the sealed class `Shape`; `WithException` keeps it |
| STypes.WellKinded | plugin/analysis/src/main/kotlin/shapeTyping/analysis/SType.kt:112 | what the declared field types guarantee: dims inside dim shapes, and bounds of their symbol's kind; `WithExceptionWellKinded` proves `withException` keeps it |
| STypes.Error | plugin/analysis/src/main/kotlin/shapeTyping/analysis/SType.kt:12 | the `error` property of every value; `WithException` proves it is replaced |
| STypes.PropagatesError | plugin/analysis/src/main/kotlin/shapeTyping/analysis/exceptions/STypeExceptions.kt:45 | `propagatesError`; `PropagatesErrorIff` proves it holds exactly for level PROPAGATE |
| STypes.SEq | plugin/analysis/src/main/kotlin/shapeTyping/analysis/SType.kt:26-143 | the overridden `equals`; `SEqReflexive`, `SEqSymmetric` and `SEqTransitive` prove it an equivalence, and `SymbolEquality`/`WildcardEquality` state what it compares |
| STypes.ListEq | plugin/analysis/src/main/kotlin/shapeTyping/analysis/SType.kt:27 | `List.equals` with `SEq` elementwise; `ListEqIff` proves it is equal length and `SEq` at every index |
| STypes.ClassName | plugin/analysis/src/main/kotlin/shapeTyping/analysis/exceptions/STypeExceptions.kt:39 | `javaClass.name` of a value, as UnsupportedSTypesException lists it |
| STypes.ClassNames | plugin/analysis/src/main/kotlin/shapeTyping/analysis/exceptions/STypeExceptions.kt:39 | the class names of the arguments, in order |
| STypes.Show | plugin/analysis/src/main/kotlin/shapeTyping/analysis/SType.kt:24-137 | the overridden `toString` of each class; the serialisation and message examples state its text |
| STypes.ShowAll | plugin/analysis/src/main/kotlin/shapeTyping/analysis/SType.kt:24 | the elements' texts, as the list's `toString` joins them |
| Strings.IntToString | plugin/analysis/src/main/kotlin/shapeTyping/analysis/SType.kt:137 | a non-negative value is written as its digits; a negative one gets a minus sign in front of the digits of its absolute value |
| Strings.NatToString | plugin/analysis/src/main/kotlin/shapeTyping/analysis/SType.kt:137 | only digits, at least one, and no leading zero for values of 10 or more |
| Strings.DigitsValueOfNatToString | plugin/analysis/src/main/kotlin/shapeTyping/analysis/SType.kt:137 | reading the digits back gives the same number |
| Strings.Join | plugin/analysis/src/main/kotlin/shapeTyping/analysis/utils/STypeSerializationUtils.kt:14 | joining no parts gives the empty string, and joining one part gives that part |
| Strings.ListToString | plugin/analysis/src/main/kotlin/shapeTyping/analysis/SType.kt:88 | a list's text is its elements' texts joined by ", " inside '[' and ']' |
| Strings.DigitsValue | plugin/compiler-plugin/src/main/kotlin/shapeTyping/plugin/synthetic/parsing/Parsing.kt:189 | the value of a string of decimal digits; `DigitsValueOfNatToString` proves it reads back `NatToString` |
| STypeUtils.ErrorAndSymbolDisjoint | plugin/analysis/src/main/kotlin/shapeTyping/analysis/utils/STypeUtils.kt:15-21 | no type is both an error and a symbol, and every error type carries an error |
| STypeUtils.AsListOfInt | plugin/analysis/src/main/kotlin/shapeTyping/analysis/utils/STypeUtils.kt:10-13 | succeeds exactly for a dim shape of numeric dims, and then gives their values in order, one per dim; otherwise the require fails |
| STypeUtils.IsError | plugin/analysis/src/main/kotlin/shapeTyping/analysis/utils/STypeUtils.kt:15-17 | `isError`: one of the three error classes; `ErrorAndSymbolDisjoint` proves no error is a symbol |
| STypeUtils.IsSymbolic | plugin/analysis/src/main/kotlin/shapeTyping/analysis/utils/STypeUtils.kt:19-21 | `isSymbolic`: a symbolic dim or shape |
| Wrappers.FailedRequirement | plugin/analysis/src/main/kotlin/shapeTyping/analysis/utils/STypeUtils.kt:11 | the IllegalArgumentException Kotlin's `require` throws; `STypeUtils.AsListOfInt` fails with it |
| Serialization.SerializeAll | plugin/analysis/src/main/kotlin/shapeTyping/analysis/utils/STypeSerializationUtils.kt:14 | on success, one string per element, each the element's own serialisation |
| Serialization.SerializeSucceedsIff | plugin/analysis/src/main/kotlin/shapeTyping/analysis/utils/STypeSerializationUtils.kt:13-24 | serialisation fails exactly when an error value can be reached through dims, arguments or tuple members, and then it throws STypeCompilerException("") |
| Serialization.SerializeAllSucceedsIff | plugin/analysis/src/main/kotlin/shapeTyping/analysis/utils/STypeSerializationUtils.kt:14 | a list serialises exactly when none of its elements contains an error, and fails with the same exception otherwise |
| Serialization.SymbolSerialization | plugin/analysis/src/main/kotlin/shapeTyping/analysis/utils/STypeSerializationUtils.kt:17-18 | a symbol is written as its bare name, whatever its bound |
| Serialization.LeafSerialization | plugin/analysis/src/main/kotlin/shapeTyping/analysis/utils/STypeSerializationUtils.kt:21 | wildcards are written "Dim" and "Shape", and a numeric dim as its decimal value |
| Serialization.SerializeList1 | plugin/analysis/src/main/kotlin/shapeTyping/analysis/utils/STypeSerializationUtils.kt:14 | a one-element list is written as that element |
| Serialization.SerializeList2 | plugin/analysis/src/main/kotlin/shapeTyping/analysis/utils/STypeSerializationUtils.kt:14 | two elements are written with one comma between them and no spaces |
| Serialization.SerializeList3 | plugin/analysis/src/main/kotlin/shapeTyping/analysis/utils/STypeSerializationUtils.kt:14 | three elements are written with commas between them |
| Serialization.SerializeList4 | plugin/analysis/src/main/kotlin/shapeTyping/analysis/utils/STypeSerializationUtils.kt:14 | four elements are written with commas between them |
| Serialization.NumericDimShapeExample | plugin/compiler-plugin/src/test/kotlin/shapeTyping/plugin/SerializationTest.kt:18-21 | [3,4,1] is written "[3,4,1]" |
| Serialization.MixedDimShapeExample | plugin/compiler-plugin/src/test/kotlin/shapeTyping/plugin/SerializationTest.kt:24-27 | [3,D,1] is written "[3,D,1]" |
| Serialization.CallExample | plugin/compiler-plugin/src/test/kotlin/shapeTyping/plugin/SerializationTest.kt:30-36 | matmul([A,4],[4,B]) is written "matmul([A,4],[4,B])" |
| Serialization.TupleExample | plugin/compiler-plugin/src/test/kotlin/shapeTyping/plugin/SerializationTest.kt:39-49 | the tuple of a dim shape, a call, a symbol and a number is written unbracketed, "[3,D,1],matmul([A,4],[4,B]),C,4" |
| Serialization.MatmulOperands | plugin/compiler-plugin/src/test/kotlin/shapeTyping/plugin/SerializationTest.kt:31-34 | the operands [A,4] and [4,B] are written "[A,4]" and "[4,B]" |
| Serialization.SerializationFailure | plugin/analysis/src/main/kotlin/shapeTyping/analysis/utils/STypeSerializationUtils.kt:22 | the STypeCompilerException with an empty message that serialising an error throws; `SerializeSucceedsIff` proves it is thrown exactly for values containing errors |
| Serialization.Serialize | plugin/analysis/src/main/kotlin/shapeTyping/analysis/utils/STypeSerializationUtils.kt:13-24 | `serialize`; `SerializeSucceedsIff` proves it succeeds exactly on error-free values, and `SymbolSerialization`/`LeafSerialization` give its text for each leaf |
| Serialization.SerializeList | plugin/analysis/src/main/kotlin/shapeTyping/analysis/utils/STypeSerializationUtils.kt:14 | `serializeList`: every element serialised and joined by ","; `SerializeList1` to `SerializeList4` give its text |
| Generics.ContainsSymbolsIff | plugin/analysis/src/main/kotlin/shapeTyping/analysis/utils/GenericsUtils.kt:14-26 | a type contains symbols exactly when it is a symbol or one of its dims, arguments or tuple members contains symbols |
| Generics.LeavesContainNoSymbols | plugin/analysis/src/main/kotlin/shapeTyping/analysis/utils/GenericsUtils.kt:14-26 | numbers, wildcards and error values never contain symbols; neither bounds nor errors are looked into |
| Generics.SymDepthZeroIff | plugin/analysis/src/main/kotlin/shapeTyping/analysis/utils/GenericsUtils.kt:14-26 | the symbol depth is zero exactly when the type contains no symbols |
| Generics.RelaxDim | plugin/analysis/src/main/kotlin/shapeTyping/analysis/utils/GenericsUtils.kt:50-53 | a symbolic dim becomes its upper bound; every other dim is left as it is |
| Generics.RelaxAll | plugin/analysis/src/main/kotlin/shapeTyping/analysis/utils/GenericsUtils.kt:42 | one relaxed type per element, in order |
| Generics.RelaxKeepsClass | plugin/analysis/src/main/kotlin/shapeTyping/analysis/utils/GenericsUtils.kt:38-66 | relaxing keeps dims dims and shapes shapes, and keeps the rank of a dim shape |
| Generics.RelaxSymbolFree | plugin/analysis/src/main/kotlin/shapeTyping/analysis/utils/GenericsUtils.kt:51-59 | a symbol-free type other than a tuple is left unchanged |
| Generics.RelaxDecreasesDepth | plugin/analysis/src/main/kotlin/shapeTyping/analysis/utils/GenericsUtils.kt:33-66 | each relaxation of a type with symbols strictly lowers its symbol depth, so repeated relaxation ends |
| Generics.ChildrenDepthDecrease | plugin/analysis/src/main/kotlin/shapeTyping/analysis/utils/GenericsUtils.kt:42-63 | relaxing every element of a list with symbols lowers the list's greatest depth |
| Generics.RelaxSymbolFreeDepth | plugin/analysis/src/main/kotlin/shapeTyping/analysis/utils/GenericsUtils.kt:38-66 | relaxing a symbol-free type gives a symbol-free type |
| Generics.KeyMatchesEquality | plugin/analysis/src/main/kotlin/shapeTyping/analysis/utils/GenericsUtils.kt:73-86 | two symbols have the same map key exactly when they are equal, so the map lookup follows symbol equality |
| Generics.Lookup | plugin/analysis/src/main/kotlin/shapeTyping/analysis/utils/GenericsUtils.kt:86-89 | only symbols find an entry, and then it is the entry filed under their key |
| Generics.ChaseWithinEnd | plugin/analysis/src/main/kotlin/shapeTyping/analysis/utils/GenericsUtils.kt:84-92 | when the bounded walk ends, it ends at a value with no entry; it stays put on an unmapped value and otherwise takes one step |
| Generics.ChaseWithinMoreFuel | plugin/analysis/src/main/kotlin/shapeTyping/analysis/utils/GenericsUtils.kt:84-92 | more steps never change where a finished walk ends |
| Generics.ChaseProperties | plugin/analysis/src/main/kotlin/shapeTyping/analysis/utils/GenericsUtils.kt:84-92 | in an acyclic map the walk ends at a value without entry; an unmapped value is its own end; a mapped value ends where its image ends |
| Generics.GetSubstitutionIfExists | plugin/analysis/src/main/kotlin/shapeTyping/analysis/utils/GenericsUtils.kt:84-92 | the while loop returns the end of the lookup chain, which has no entry in the map |
| Generics.ChaseWithinKeepsKind | plugin/analysis/src/main/kotlin/shapeTyping/analysis/utils/GenericsUtils.kt:84-92 | with a map that sends dim symbols to dims and shape symbols to shapes, the walk keeps dims dims and shapes shapes |
| Generics.CastToDim | plugin/analysis/src/main/kotlin/shapeTyping/analysis/utils/GenericsUtils.kt:97 | the as-Dim cast succeeds exactly on dims and returns the value unchanged |
| Generics.Substitute | plugin/analysis/src/main/kotlin/shapeTyping/analysis/utils/GenericsUtils.kt:73-114 | on success a dim shape stays a dim shape of the same rank, a call keeps its name and number of arguments, and a tuple keeps its length; with symbols, each dim, argument or member is the substitution of the original one, and a failure is the failure of some element |
| Generics.SubstituteDims | plugin/analysis/src/main/kotlin/shapeTyping/analysis/utils/GenericsUtils.kt:97 | on success, one dim per dim, each the substituted and recast original; on failure, the failure of some dim |
| Generics.SubstituteArgs | plugin/analysis/src/main/kotlin/shapeTyping/analysis/utils/GenericsUtils.kt:101-107 | on success, one argument per argument, each the substitution of the original; on failure, the failure of some argument |
| Generics.SubstituteAll | plugin/analysis/src/main/kotlin/shapeTyping/analysis/utils/GenericsUtils.kt:111 | on success, one value per tuple member, each the substitution of the original; on failure, the failure of some member |
| Generics.SubstituteSymbolFree | plugin/analysis/src/main/kotlin/shapeTyping/analysis/utils/GenericsUtils.kt:74-76 | a type without symbols is returned unchanged |
| Generics.SubstituteSymbol | plugin/analysis/src/main/kotlin/shapeTyping/analysis/utils/GenericsUtils.kt:95 | a symbol becomes the end of its lookup chain, which has no entry; an unmapped symbol is left as it is |
| Generics.SubstituteSucceeds | plugin/analysis/src/main/kotlin/shapeTyping/analysis/utils/GenericsUtils.kt:73-114 | with a map that sends dim symbols to dims and shape symbols to shapes, substitution never throws on a well-kinded type and keeps its kind |
| Generics.SubstituteDimsSucceeds | plugin/analysis/src/main/kotlin/shapeTyping/analysis/utils/GenericsUtils.kt:97 | such a map never makes the as-Dim cast of a dim shape's dims fail |
| Generics.SubstituteArgsSucceeds | plugin/analysis/src/main/kotlin/shapeTyping/analysis/utils/GenericsUtils.kt:101-107 | such a map never makes a call's substitution fail |
| Generics.SubstituteAllSucceeds | plugin/analysis/src/main/kotlin/shapeTyping/analysis/utils/GenericsUtils.kt:111 | such a map never makes a tuple's substitution fail |
| Generics.RelaxChain | plugin/analysis/src/main/kotlin/shapeTyping/analysis/utils/GenericsUtils.kt:38-66 | the relaxations of a type start with the type itself |
| Generics.PairWith | plugin/analysis/src/main/kotlin/shapeTyping/analysis/utils/GenericsUtils.kt:119-124 | pairs one left value with each right value, in order |
| Generics.RelaxChainTail | plugin/analysis/src/main/kotlin/shapeTyping/analysis/utils/GenericsUtils.kt:140-144 | the relaxations after the first are the relaxations of the relaxed type |
| Generics.PairsAfterStepRight | plugin/analysis/src/main/kotlin/shapeTyping/analysis/utils/GenericsUtils.kt:140-141 | relaxing the right value moves one step along the right value's relaxations |
| Generics.PairsAfterStepLeft | plugin/analysis/src/main/kotlin/shapeTyping/analysis/utils/GenericsUtils.kt:142-145 | when the right value is symbol-free, the right value starts over and the left value is relaxed |
| Generics.PairsAfterIsProductTail | plugin/analysis/src/main/kotlin/shapeTyping/analysis/utils/GenericsUtils.kt:136-147 | from any state, the pairs still due are the rest of the right relaxations, then every later left relaxation against all right relaxations |
| Generics.IteratorOrder | plugin/analysis/src/main/kotlin/shapeTyping/analysis/utils/GenericsUtils.kt:116-126 | the iterator returns every left relaxation against every right relaxation, left-major, in the order the class comment gives |
| Generics.BoundSubstitutionIterator.constructor | plugin/analysis/src/main/kotlin/shapeTyping/analysis/utils/GenericsUtils.kt:127-130 | starts at (l, r) with the first pair due, and the pairs still due are the whole left-major product of the relaxations |
| Generics.BoundSubstitutionIterator.HasNext | plugin/analysis/src/main/kotlin/shapeTyping/analysis/utils/GenericsUtils.kt:132-134 | true exactly when pairs are still due |
| Generics.BoundSubstitutionIterator.Next | plugin/analysis/src/main/kotlin/shapeTyping/analysis/utils/GenericsUtils.kt:136-147 | returns the first pair still due and drops it; with none due it returns the current pair again |
| Generics.IteratorExample | plugin/compiler-plugin/src/test/kotlin/GenericUtilsTest.kt:17-31 | a shape symbol A bounded by [1], against itself, gives (A, A), (A, [1]), ([1], A), ([1], [1]) |
| Generics.BoundChain | plugin/analysis/src/main/kotlin/shapeTyping/analysis/utils/STypeSubtyper.kt:86-95 | the chain of upper bounds that the bound loops walk: it starts at the first bound, each next entry is the bound of the one before, and it ends at the first value that is not a symbol of the kind walked |
| Generics.RecursivePredicateAny | plugin/analysis/src/main/kotlin/shapeTyping/analysis/utils/GenericsUtils.kt:14-21 | whether a predicate holds of a value or of a node under its dims, arguments or tuple types (never its bounds); `ContainsSymbolsIff` unfolds it for symbols |
| Generics.ContainsSymbols | plugin/analysis/src/main/kotlin/shapeTyping/analysis/utils/GenericsUtils.kt:26 | `containsSymbols`; `ContainsSymbolsIff` proves it holds exactly for symbols and for nodes with a child containing one |
| Generics.ContainsErrors | plugin/analysis/src/main/kotlin/shapeTyping/analysis/utils/GenericsUtils.kt:28 | `containsErrors`; `Attributes.ContainsErrorsIff` proves it holds exactly of an error or a node with a child containing one |
| Generics.ContainsShapeFunctionCalls | plugin/analysis/src/main/kotlin/shapeTyping/analysis/utils/GenericsUtils.kt:30 | `containsShapeFunctionCalls`; `Evaluator.CallFreeIsUnchanged` proves values without calls evaluate to themselves |
| Generics.Children | plugin/analysis/src/main/kotlin/shapeTyping/analysis/utils/GenericsUtils.kt:14-21 | the children `recursivePredicateAny` descends into: dims, call arguments or tuple types, never bounds; `ContainsSymbolsIff` unfolds the search through them |
| Generics.Relax | plugin/analysis/src/main/kotlin/shapeTyping/analysis/utils/GenericsUtils.kt:38-66 | `substituteGenericsWithUpperBounds`, one step; `RelaxSymbolFree` proves symbol-free shapes are unchanged, `RelaxKeepsClass` that the class is kept and `RelaxDecreasesDepth` that symbols get shallower |
| Generics.IsKindSymbol | plugin/compiler-plugin/src/main/kotlin/shapeTyping/plugin/checkers/utils/InferenceUtils.kt:145 | the loop condition of the bound walks: a symbol of the walked kind; `Inference.AllBounds` proves the walk's result |
| Generics.Key | plugin/analysis/src/main/kotlin/shapeTyping/analysis/SType.kt:53-56 | the key of a symbol in a substitution map: kind, name and scope id; `KeyMatchesEquality` proves two symbols have equal keys exactly when they are equal |
| Generics.ChaseWithin | plugin/analysis/src/main/kotlin/shapeTyping/analysis/utils/GenericsUtils.kt:84-92 | the end of the lookup chain reached within a fuel bound; `ChaseWithinEnd` and `ChaseWithinMoreFuel` state its properties |
| Generics.Chase | plugin/analysis/src/main/kotlin/shapeTyping/analysis/utils/GenericsUtils.kt:84-92 | what `getSubstitutionIfExists` returns: the end of the lookup chain; `ChaseProperties` proves it ends at a value without entry, and `GetSubstitutionIfExists` that the loop computes it |
| Generics.CastFailure | plugin/analysis/src/main/kotlin/shapeTyping/analysis/utils/GenericsUtils.kt:97 | the ClassCastException of a failing `as Dim` cast, naming the value's class; `CastToDim` fails with it exactly on non-dims |
| Generics.SubstituteDim | plugin/analysis/src/main/kotlin/shapeTyping/analysis/utils/GenericsUtils.kt:97 | one dim of a dim shape, substituted and cast back to `Dim`: a success is a dim equal to the substitution of the input, a failure is a failed substitution or a non-dim result |
| Generics.SubstituteArg | plugin/analysis/src/main/kotlin/shapeTyping/analysis/utils/GenericsUtils.kt:101-106 | one argument of a call: a dim symbol becomes the end of its lookup chain, a shape containing symbols its substitution, any other argument stays as it is |
| Generics.Product | plugin/analysis/src/main/kotlin/shapeTyping/analysis/utils/GenericsUtils.kt:127-147 | every left relaxation paired with every right relaxation, left-major; `IteratorOrder` proves the iterator yields exactly this sequence |
| Generics.PairsAfter | plugin/analysis/src/main/kotlin/shapeTyping/analysis/utils/GenericsUtils.kt:127-147 | the pairs `next()` returns after the current one; `PairsAfterIsProductTail` proves they are the rest of the product |
| Generics.BoundSubstitutionIterator.Remaining | plugin/analysis/src/main/kotlin/shapeTyping/analysis/utils/GenericsUtils.kt:127-147 | the pairs still to come; `Next` pops its head and `HasNext` is its non-emptiness |
| AnalysisSubtyper.StepSubtypeTest | plugin/analysis/src/main/kotlin/shapeTyping/analysis/utils/STypeSubtyper.kt:79-84 | NOTSUBTYPE exactly when the bound is not a subtype; otherwise STRICTSUBTYPE when the link is strict, and the bound's own answer when it is not |
| AnalysisSubtyper.UpperBoundedBy | plugin/analysis/src/main/kotlin/shapeTyping/analysis/utils/STypeSubtyper.kt:78-118 | the while loop over the bounds gives the same answer as the recursive walk along the chain of bounds |
| AnalysisSubtyper.SubtypeLists | plugin/analysis/src/main/kotlin/shapeTyping/analysis/utils/STypeSubtyper.kt:125-137 | the forEach loop with its early return gives the answer of the recursive list rule |
| AnalysisSubtyper.ListSubtypeCharacterization | plugin/analysis/src/main/kotlin/shapeTyping/analysis/utils/STypeSubtyper.kt:123-137 | lists are unrelated when their sizes differ or some pair is unrelated; otherwise the answer is strict exactly when some pair is strict |
| AnalysisSubtyper.ListSubtypeFromCharacterization | plugin/analysis/src/main/kotlin/shapeTyping/analysis/utils/STypeSubtyper.kt:127-136 | the same rule for the rest of the loop from position i, given the strictness seen so far |
| AnalysisSubtyper.ErrorIsSubtypeOfNothing | plugin/analysis/src/main/kotlin/shapeTyping/analysis/utils/STypeSubtyper.kt:20-57 | an error value is a subtype of nothing, itself included |
| AnalysisSubtyper.SubtypeReflexive | plugin/analysis/src/main/kotlin/shapeTyping/analysis/utils/STypeSubtyper.kt:37-59 | every type without errors is a subtype of itself, and not a strict one |
| AnalysisSubtyper.StrictSubtypeIrreflexive | plugin/analysis/src/main/kotlin/shapeTyping/analysis/utils/STypeSubtyper.kt:18-59 | no type is a strict subtype of itself |
| AnalysisSubtyper.NumericDimRules | plugin/analysis/src/main/kotlin/shapeTyping/analysis/utils/STypeSubtyper.kt:40-47 | numeric dims are related only when their values are equal, and every numeric dim is a strict subtype of the wildcard dim |
| AnalysisSubtyper.WildcardShapeRules | plugin/analysis/src/main/kotlin/shapeTyping/analysis/utils/STypeSubtyper.kt:60-63 | against the wildcard shape, a dim shape is a strict subtype and a shape function call a non-strict one |
| AnalysisSubtyper.NothingConcreteBelowASymbol | plugin/analysis/src/main/kotlin/shapeTyping/analysis/utils/STypeSubtyper.kt:44-66 | only a symbol can be a subtype of a symbol |
| AnalysisSubtyper.SymbolAgainstSymbol | plugin/analysis/src/main/kotlin/shapeTyping/analysis/utils/STypeSubtyper.kt:44-118 | against a symbol of its kind, a symbol answers SUBTYPE when they are equal and otherwise walks its own bounds |
| AnalysisSubtyper.WalkToSymbol | plugin/analysis/src/main/kotlin/shapeTyping/analysis/utils/STypeSubtyper.kt:86-96 | walking bounds towards a symbol succeeds exactly when that symbol is on the chain of bounds |
| AnalysisSubtyper.WalkToSymbolStep | plugin/analysis/src/main/kotlin/shapeTyping/analysis/utils/STypeSubtyper.kt:88-95 | one iteration of that walk: the current bound matches, or the rest of the walk does |
| AnalysisSubtyper.ChainMembership | plugin/analysis/src/main/kotlin/shapeTyping/analysis/utils/STypeSubtyper.kt:93-94 | a value is on a symbol's chain exactly when it is that symbol or on the chain of its bound |
| AnalysisSubtyper.ConsMembership | plugin/analysis/src/main/kotlin/shapeTyping/analysis/utils/STypeSubtyper.kt:93-94 | a value is on a list with x in front exactly when it equals x or is on the rest of the list |
| AnalysisSubtyper.SymbolBelowSymbol | plugin/analysis/src/main/kotlin/shapeTyping/analysis/utils/STypeSubtyper.kt:44-118 | a symbol is a subtype of a symbol of its kind exactly when that symbol is itself or on its chain of bounds |
| AnalysisSubtyper.EveryShapeBelowWildcardShape | plugin/analysis/src/main/kotlin/shapeTyping/analysis/utils/STypeSubtyper.kt:56-118 | every well-kinded shape whose bounds carry no error is a subtype of the wildcard shape |
| AnalysisSubtyper.BoundLinks | plugin/analysis/src/main/kotlin/shapeTyping/analysis/utils/STypeSubtyper.kt:86-95 | the pairs of bound and strictness that the loop visits, starting with the symbol's own bound and strictness |
| AnalysisSubtyper.WalkBoundsMissesAll | plugin/analysis/src/main/kotlin/shapeTyping/analysis/utils/STypeSubtyper.kt:86-96 | the walk answers NOTSUBTYPE exactly when no bound on the chain is a subtype of the target |
| AnalysisSubtyper.WalkBoundsFirstMatch | plugin/analysis/src/main/kotlin/shapeTyping/analysis/utils/STypeSubtyper.kt:89-96 | the first bound that matches decides the answer, made strict only by the strictness of the link that leads to it; strictness of earlier links does not carry over |
| AnalysisSubtyper.WildcardShapeExamples | plugin/compiler-plugin/src/test/kotlin/shapeTyping/plugin/SubtypingTest.kt:18-59 | [2,3,Dim] is a strict subtype of Shape; a symbol bounded non-strictly by Shape is a non-strict subtype; a strict bound, or a dim-shape bound, gives a strict subtype |
| AnalysisSubtyper.DimShapeExamples | plugin/compiler-plugin/src/test/kotlin/shapeTyping/plugin/SubtypingTest.kt:73-116 | [2,3,Dim] is a non-strict subtype of itself and a strict subtype of [2,Dim,Dim] |
| AnalysisSubtyper.DimShapeMismatchExample | plugin/compiler-plugin/src/test/kotlin/shapeTyping/plugin/SubtypingTest.kt:119-124 | [2,3,Dim] and [3,Dim,Dim] are unrelated |
| AnalysisSubtyper.SymbolWithDimShapeBoundExamples | plugin/compiler-plugin/src/test/kotlin/shapeTyping/plugin/SubtypingTest.kt:127-140 | a symbol bounded by [1,2,3] is not below [Dim,3,3] and is a strict subtype of [Dim,2,3] |
| AnalysisSubtyper.SymbolChainExample | plugin/compiler-plugin/src/test/kotlin/shapeTyping/plugin/SubtypingTest.kt:80-108 | two symbols that share a bound are unrelated; through non-strict links a symbol is a non-strict subtype of each bound on its chain |
| AnalysisSubtyper.IsSubtypeOf | plugin/analysis/src/main/kotlin/shapeTyping/analysis/utils/STypeSubtyper.kt:14-17 | `isSubtypeOf` holds for every answer but NOTSUBTYPE; `SubtypeReflexive` proves it of every error-free value against itself, `ErrorIsSubtypeOfNothing` refutes it for errors |
| AnalysisSubtyper.IsStrictSubtypeOf | plugin/analysis/src/main/kotlin/shapeTyping/analysis/utils/STypeSubtyper.kt:18 | `isStrictSubtypeOf` holds for the answer STRICTSUBTYPE only; `StrictSubtypeIrreflexive` proves no value is a strict subtype of itself |
| AnalysisSubtyper.Subtype | plugin/analysis/src/main/kotlin/shapeTyping/analysis/utils/STypeSubtyper.kt:20-26 | dispatches on the class of the left value: errors are unrelated, dims and shapes go to their own rules, tuples and lists compare elementwise; the rule lemmas (`NumericDimRules`, `WildcardShapeRules`, `SymbolAgainstSymbol`) state its answers |
| AnalysisSubtyper.DimSubtype | plugin/analysis/src/main/kotlin/shapeTyping/analysis/utils/STypeSubtyper.kt:34-54 | `Dim.subtype`: an equal dim is SUBTYPE, a wildcard is above every non-error dim, a symbol walks its bounds; `NumericDimRules` and `NothingConcreteBelowASymbol` state its answers |
| AnalysisSubtyper.ShapeSubtype | plugin/analysis/src/main/kotlin/shapeTyping/analysis/utils/STypeSubtyper.kt:56-76 | `Shape.subtype`: dim shapes compare their dims as lists, a wildcard shape lies above every non-error shape, a symbol walks its bounds; `EveryShapeBelowWildcardShape` and `WildcardShapeRules` state its answers |
| AnalysisSubtyper.WalkBounds | plugin/analysis/src/main/kotlin/shapeTyping/analysis/utils/STypeSubtyper.kt:78-118 | the reference walk the `upperBoundedBy` loop is proved to compute (`UpperBoundedBy`): the answer of the first bound that is related to `other`, made strict once a strict bound is passed; `WalkBoundsFirstMatch` and `WalkBoundsMissesAll` state both cases |
| AnalysisSubtyper.ListSubtype | plugin/analysis/src/main/kotlin/shapeTyping/analysis/utils/STypeSubtyper.kt:125-137 | lists of different lengths are unrelated; `ListSubtypeCharacterization` proves it is NOTSUBTYPE exactly when some pair is unrelated and STRICTSUBTYPE exactly when none is and some pair is strict |
| AnalysisSubtyper.ListSubtypeFrom | plugin/analysis/src/main/kotlin/shapeTyping/analysis/utils/STypeSubtyper.kt:127-136 | the scan from an index that the loop of `SubtypeLists` computes; `ListSubtypeFromCharacterization` gives its answer in terms of the pairs after the index |
| PluginSubtyper.StepSubtypeTest | plugin/compiler-plugin/src/main/kotlin/shapeTyping/plugin/analysis/STypeSubtyper.kt:78-86 | an unrelated bound gives NOTSUBTYPE; outside strict mode any positive answer becomes SUBTYPE and never STRICTSUBTYPE; in strict mode with a non-strict link only a strict answer survives |
| PluginSubtyper.UpperBoundedBy | plugin/compiler-plugin/src/main/kotlin/shapeTyping/plugin/analysis/STypeSubtyper.kt:77-123 | the while loop over the bounds, whose strictness stays false, gives the same answer as the recursive walk along the chain of bounds |
| PluginSubtyper.SubtypeLists | plugin/compiler-plugin/src/main/kotlin/shapeTyping/plugin/analysis/STypeSubtyper.kt:130-142 | the forEach loop with its early return gives the answer of the recursive list rule |
| PluginSubtyper.ListSubtypeCharacterization | plugin/compiler-plugin/src/main/kotlin/shapeTyping/plugin/analysis/STypeSubtyper.kt:128-142 | lists are unrelated when their sizes differ or some pair is unrelated; otherwise the answer is strict exactly in strict mode with some strict pair |
| PluginSubtyper.ListSubtypeFromCharacterization | plugin/compiler-plugin/src/main/kotlin/shapeTyping/plugin/analysis/STypeSubtyper.kt:132-141 | the same rule for the rest of the loop from position i |
| PluginSubtyper.NonStrictWalk | plugin/compiler-plugin/src/main/kotlin/shapeTyping/plugin/analysis/STypeSubtyper.kt:80-98 | outside strict mode the walk never answers STRICTSUBTYPE, and answers SUBTYPE exactly when some bound on the chain is related to the target |
| PluginSubtyper.ChainRelated | plugin/compiler-plugin/src/main/kotlin/shapeTyping/plugin/analysis/STypeSubtyper.kt:90-96 | some bound on a symbol's chain is related to the target exactly when the symbol is, or some bound on the chain of its bound is |
| PluginSubtyper.ChainStrict | plugin/compiler-plugin/src/main/kotlin/shapeTyping/plugin/analysis/STypeSubtyper.kt:90-96 | some bound on a symbol's chain is a strict subtype of the target exactly when the symbol is, or some bound on the chain of its bound is |
| PluginSubtyper.StrictWalk | plugin/compiler-plugin/src/main/kotlin/shapeTyping/plugin/analysis/STypeSubtyper.kt:83-95 | in strict mode the walk never answers SUBTYPE; it answers STRICTSUBTYPE exactly when some bound on the chain is a strict subtype of the target, even where a bound is a plain subtype |
| PluginSubtyper.NonStrictNeverStrict | plugin/compiler-plugin/src/main/kotlin/shapeTyping/plugin/analysis/STypeSubtyper.kt:14-141 | outside strict mode no rule answers STRICTSUBTYPE, so isSubtypeOf means anything but NOTSUBTYPE |
| PluginSubtyper.WildcardsAreTopsWhenNotStrict | plugin/compiler-plugin/src/main/kotlin/shapeTyping/plugin/analysis/STypeSubtyper.kt:35-59 | outside strict mode every dim that is not an error is below the wildcard dim, and every such shape below the wildcard shape |
| PluginSubtyper.ErrorIsSubtypeOfNothing | plugin/compiler-plugin/src/main/kotlin/shapeTyping/plugin/analysis/STypeSubtyper.kt:17-55 | an error value is a subtype of nothing, in either mode |
| PluginSubtyper.NumericDimRule | plugin/compiler-plugin/src/main/kotlin/shapeTyping/plugin/analysis/STypeSubtyper.kt:43-45 | numeric dims are related only when their values are equal, in either mode |
| PluginSubtyper.StrictBoundDivergence | plugin/compiler-plugin/src/main/kotlin/shapeTyping/plugin/analysis/STypeSubtyper.kt:89-119 | a symbol whose strict bound equals the target is a strict subtype of it for the analysis relation, but not for this relation in strict mode, because the walk never reads a link's strictness |
| PluginSubtyper.IsSubtypeOf | plugin/compiler-plugin/src/main/kotlin/shapeTyping/plugin/analysis/STypeSubtyper.kt:14 | the non-strict relation answers SUBTYPE; `NonStrictNeverStrict` proves the non-strict relation never answers STRICTSUBTYPE |
| PluginSubtyper.IsStrictSubtypeOf | plugin/compiler-plugin/src/main/kotlin/shapeTyping/plugin/analysis/STypeSubtyper.kt:15 | the strict relation answers STRICTSUBTYPE; `StrictBoundDivergence` shows where it disagrees with the analysis subtyper |
| PluginSubtyper.Subtype | plugin/compiler-plugin/src/main/kotlin/shapeTyping/plugin/analysis/STypeSubtyper.kt:17-23 | dispatch on the class of the left value with the `strict` flag passed down; `ErrorIsSubtypeOfNothing`, `NumericDimRule` and `WildcardsAreTopsWhenNotStrict` state its answers |
| PluginSubtyper.DimSubtype | plugin/compiler-plugin/src/main/kotlin/shapeTyping/plugin/analysis/STypeSubtyper.kt:31-52 | `Dim.subtype(other, strict)`; a symbol's answer is the bound walk of `UpperBoundedBy`, and a number below a wildcard is SUBTYPE only when not strict (`NumericDimRule`) |
| PluginSubtyper.ShapeSubtype | plugin/compiler-plugin/src/main/kotlin/shapeTyping/plugin/analysis/STypeSubtyper.kt:54-75 | `Shape.subtype(other, strict)`; a wildcard shape is above every non-error shape when not strict (`WildcardsAreTopsWhenNotStrict`) |
| PluginSubtyper.WalkBounds | plugin/compiler-plugin/src/main/kotlin/shapeTyping/plugin/analysis/STypeSubtyper.kt:77-123 | the reference walk of the `upperBoundedBy` loop, which keeps the starting strictness since the update is commented out; `NonStrictWalk`, `StrictWalk`, `ChainRelated` and `ChainStrict` characterise it |
| PluginSubtyper.ListSubtype | plugin/compiler-plugin/src/main/kotlin/shapeTyping/plugin/analysis/STypeSubtyper.kt:130-142 | lists of different lengths are unrelated; `ListSubtypeCharacterization` states the answer from the elementwise pairs |
| PluginSubtyper.ListSubtypeFrom | plugin/compiler-plugin/src/main/kotlin/shapeTyping/plugin/analysis/STypeSubtyper.kt:132-141 | the scan from an index that `SubtypeLists` computes; `ListSubtypeFromCharacterization` states its answer |
| Inference.CanSubstituteWithOwnBound | plugin/compiler-plugin/src/main/kotlin/shapeTyping/plugin/checkers/utils/InferenceUtils.kt:136-140 | a symbol may be replaced by its own error-free bound exactly when the bound is not strict |
| Inference.CanSubstituteWithStrictness | plugin/compiler-plugin/src/main/kotlin/shapeTyping/plugin/checkers/utils/InferenceUtils.kt:136-140 | whatever may replace a symbol is a subtype of its bound, and every strict subtype of the bound may replace it |
| Inference.PositionBindingsSpec | plugin/compiler-plugin/src/main/kotlin/shapeTyping/plugin/checkers/utils/InferenceUtils.kt:102-118 | zipping a dim shape, or a call's arguments, binds exactly the symbols at binding positions, each to the argument at its last such position, because a later entry overwrites an earlier one |
| Inference.PositionBindingsDomain | plugin/compiler-plugin/src/main/kotlin/shapeTyping/plugin/checkers/utils/InferenceUtils.kt:104-115 | every symbol at a binding position is bound |
| Inference.PositionBindingsValues | plugin/compiler-plugin/src/main/kotlin/shapeTyping/plugin/checkers/utils/InferenceUtils.kt:104-115 | every binding comes from the last binding position of its symbol |
| Inference.LastBinderShift | plugin/compiler-plugin/src/main/kotlin/shapeTyping/plugin/checkers/utils/InferenceUtils.kt:105-115 | a last binding position of the tails is one of the whole lists, one index further on |
| Inference.SubstitutionsToSubstituteInto | plugin/compiler-plugin/src/main/kotlin/shapeTyping/plugin/checkers/utils/InferenceUtils.kt:94-95 | a constraint without symbols fails the require with its message |
| Inference.TupleBindings | plugin/compiler-plugin/src/main/kotlin/shapeTyping/plugin/checkers/utils/InferenceUtils.kt:119-131 | a successful tuple match keeps every binding already made |
| Inference.TupleBindingsMerge | plugin/compiler-plugin/src/main/kotlin/shapeTyping/plugin/checkers/utils/InferenceUtils.kt:119-131 | a successful tuple match binds every symbol that its symbol-containing components bind, to an equal value, and keeps the earlier values up to equality |
| Inference.TupleBindingsAgree | plugin/compiler-plugin/src/main/kotlin/shapeTyping/plugin/checkers/utils/InferenceUtils.kt:123-128 | in a successful tuple match every symbol-containing component matches, and no two of them bind one symbol to unequal values |
| Inference.NewSubstitutions | plugin/compiler-plugin/src/main/kotlin/shapeTyping/plugin/checkers/utils/InferenceUtils.kt:76-82 | the new bindings never disagree with a binding made before |
| Inference.InferSubstitutionMap | plugin/compiler-plugin/src/main/kotlin/shapeTyping/plugin/checkers/utils/InferenceUtils.kt:66-92 | the for loop over the iterator gives the answer of the recursive walk over the product of relaxations |
| Inference.InferFromPairsSound | plugin/compiler-plugin/src/main/kotlin/shapeTyping/plugin/checkers/utils/InferenceUtils.kt:84-91 | bindings are only taken from a pair that the subtyper relates, and never disagree with the previous map |
| Inference.InferFromPairsUnrelated | plugin/compiler-plugin/src/main/kotlin/shapeTyping/plugin/checkers/utils/InferenceUtils.kt:85-91 | when no pair is related, nothing is inferred |
| Inference.InferArgAgainstConstraint | plugin/compiler-plugin/src/main/kotlin/shapeTyping/plugin/checkers/utils/InferenceUtils.kt:47-54 | a constraint without symbols gives null; on success every existing substitution is kept with its value |
| Inference.InferArgAddsAgreeingBindings | plugin/compiler-plugin/src/main/kotlin/shapeTyping/plugin/checkers/utils/InferenceUtils.kt:47-54 | a successful step adds only bindings inferred from the argument, and none of them disagree with the existing ones |
| Inference.InferArgsStaysFailed | plugin/compiler-plugin/src/main/kotlin/shapeTyping/plugin/checkers/utils/InferenceUtils.kt:25-27 | once a step has failed, the fold stays null |
| Inference.InferArgsExtends | plugin/compiler-plugin/src/main/kotlin/shapeTyping/plugin/checkers/utils/InferenceUtils.kt:21-27 | a successful fold keeps every incoming substitution unchanged |
| Inference.LatestValidKeeps | plugin/compiler-plugin/src/main/kotlin/shapeTyping/plugin/checkers/utils/InferenceUtils.kt:34-41 | accumulated substitutions are never dropped or changed, and a cleared flag stays cleared |
| Inference.LatestValidAgreesWithInferArgs | plugin/compiler-plugin/src/main/kotlin/shapeTyping/plugin/checkers/utils/InferenceUtils.kt:21-41 | the flag is true exactly when every step succeeded, and then the map is the one inferArgsAgainstConstraint returns |
| Inference.FullyInferredFromNothing | plugin/compiler-plugin/src/main/kotlin/shapeTyping/plugin/checkers/utils/InferenceUtils.kt:56-64 | with no substitutions, a type is fully inferred exactly when it contains no symbols |
| Inference.FullyInferredMonotone | plugin/compiler-plugin/src/main/kotlin/shapeTyping/plugin/checkers/utils/InferenceUtils.kt:56-64 | more substitutions never make a type less inferred |
| Inference.BoundsFromStep | plugin/compiler-plugin/src/main/kotlin/shapeTyping/plugin/checkers/utils/InferenceUtils.kt:145-149 | one iteration of the allBounds loop keeps its invariant: what was collected, followed by the bounds still to come, is the whole chain |
| Inference.AllBounds | plugin/compiler-plugin/src/main/kotlin/shapeTyping/plugin/checkers/utils/InferenceUtils.kt:142-162 | the loop returns the chain of upper bounds, ending at the first bound that is not a symbol |
| Inference.InferOnSecondPair | plugin/compiler-plugin/src/main/kotlin/shapeTyping/plugin/checkers/utils/InferenceUtils.kt:84-91 | when the argument is not below the constraint but is below its only relaxation, the bindings are taken against the original constraint |
| Inference.TwoPairs | plugin/compiler-plugin/src/main/kotlin/shapeTyping/plugin/checkers/utils/InferenceUtils.kt:85 | a symbol-free argument against a constraint whose single relaxation is symbol-free yields exactly two pairs |
| Inference.NumericPairAgainstSymbols | plugin/compiler-plugin/src/main/kotlin/shapeTyping/plugin/checkers/utils/InferenceUtils.kt:86 | a numeric pair is not below a pair of dim symbols, but is below [Dim, Dim] |
| Inference.NumericPairInference | plugin/compiler-plugin/src/main/kotlin/shapeTyping/plugin/checkers/utils/InferenceUtils.kt:85-106 | a numeric pair against two unbounded dim symbols binds each symbol to its number |
| Inference.MatmulFirstArgument | plugin/compiler-plugin/src/test/kotlin/shapeTyping/plugin/InferenceTest.kt:64-65 | [2, 3] against [A, B] gives {A: 2, B: 3} |
| Inference.MatmulSecondArgument | plugin/compiler-plugin/src/test/kotlin/shapeTyping/plugin/InferenceTest.kt:67-72 | [3, 4] against [B, C] agrees on B and adds C: 4 |
| Inference.MatmulConflict | plugin/compiler-plugin/src/test/kotlin/shapeTyping/plugin/InferenceTest.kt:88-89 | [4, 4] against [B, C] with B already 3 gives null |
| Inference.Clash | plugin/compiler-plugin/src/main/kotlin/shapeTyping/plugin/checkers/utils/InferenceUtils.kt:78-80 | some symbol is bound in both maps to values that are not equal; `InferArgAddsAgreeingBindings` proves inferred bindings never clash with the earlier ones |
| Inference.CanSubstituteWith | plugin/compiler-plugin/src/main/kotlin/shapeTyping/plugin/checkers/utils/InferenceUtils.kt:136-140 | `canSubstituteWith`: the value lies below the symbol's bound, strictly for a strict bound; `CanSubstituteWithOwnBound` and `CanSubstituteWithStrictness` state its cases |
| Inference.Binds | plugin/compiler-plugin/src/main/kotlin/shapeTyping/plugin/checkers/utils/InferenceUtils.kt:102-118 | whether a constraint position binds: symbolic dims in a dim shape, any symbol in a call |
| Inference.PositionBindings | plugin/compiler-plugin/src/main/kotlin/shapeTyping/plugin/checkers/utils/InferenceUtils.kt:102-118 | the bindings of zipped lists, later positions overriding earlier ones; `PositionBindingsSpec`, `PositionBindingsDomain` and `PositionBindingsValues` state its keys and values |
| Inference.InferFromPairs | plugin/compiler-plugin/src/main/kotlin/shapeTyping/plugin/checkers/utils/InferenceUtils.kt:85-91 | the loop over the iterator's pairs; `InferFromPairsSound` proves bindings are taken only from a pair the subtyper relates and never disagree with the previous map, and `InferFromPairsUnrelated` that no such pair gives null |
| Inference.InferSubstitutions | plugin/compiler-plugin/src/main/kotlin/shapeTyping/plugin/checkers/utils/InferenceUtils.kt:66-92 | what `inferSubstitutionMap` computes; `InferSubstitutionMap` proves the method with its loop over the iterator returns it |
| Inference.InferArgsFrom | plugin/compiler-plugin/src/main/kotlin/shapeTyping/plugin/checkers/utils/InferenceUtils.kt:25-27 | the fold of `inferArgsAgainstConstraint` from an intermediate map; `InferArgsStaysFailed` and `InferArgsExtends` state that null stays null and success extends the map |
| Inference.InferArgsAgainstConstraint | plugin/compiler-plugin/src/main/kotlin/shapeTyping/plugin/checkers/utils/InferenceUtils.kt:21-27 | `inferArgsAgainstConstraint`; `InferArgsExtends` proves a success extends the starting map, and `LatestValidAgreesWithInferArgs` relates it to `latestValidInference` |
| Inference.LatestValidFrom | plugin/compiler-plugin/src/main/kotlin/shapeTyping/plugin/checkers/utils/InferenceUtils.kt:38-41 | the fold of `latestValidInference` from an intermediate pair; `LatestValidKeeps` states it keeps the earlier bindings |
| Inference.LatestValidInference | plugin/compiler-plugin/src/main/kotlin/shapeTyping/plugin/checkers/utils/InferenceUtils.kt:34-41 | `latestValidInference`; `LatestValidAgreesWithInferArgs` proves it gives the map of `inferArgsAgainstConstraint` with the flag set when that succeeds, and the flag cleared otherwise |
| Inference.FullyInferredFrom | plugin/compiler-plugin/src/main/kotlin/shapeTyping/plugin/checkers/utils/InferenceUtils.kt:56-64 | `fullyInferredFrom`; `FullyInferredFromNothing` proves the empty map infers exactly the symbol-free values, `FullyInferredMonotone` that a larger map infers at least as much |
| Inference.BoundsFrom | plugin/compiler-plugin/src/main/kotlin/shapeTyping/plugin/checkers/utils/InferenceUtils.kt:142-162 | the bounds still to collect from a point of the chain; `BoundsFromStep` and `AllBounds` prove the loop collects them in order |
| Attributes.ChainWeight | plugin/compiler-plugin/src/main/kotlin/shapeTyping/plugin/checkers/utils/AttributesUtils.kt:75-99 | every bound on a chain weighs no more than the chain's start, so the recursion of the union through bounds ends |
| Attributes.ChainKeepsKind | plugin/compiler-plugin/src/main/kotlin/shapeTyping/plugin/checkers/utils/AttributesUtils.kt:108-113 | every bound on the chain of a well-kinded bound has the same kind and is well-kinded |
| Attributes.LastBound | plugin/compiler-plugin/src/main/kotlin/shapeTyping/plugin/checkers/utils/AttributesUtils.kt:113-127 | allBounds().last() of a symbol weighs less than the symbol |
| Attributes.FirstShared | plugin/compiler-plugin/src/main/kotlin/shapeTyping/plugin/checkers/utils/AttributesUtils.kt:110-111 | returns the first candidate equal to some bound of the other chain, and none when no candidate is |
| Attributes.UnionAll | plugin/compiler-plugin/src/main/kotlin/shapeTyping/plugin/checkers/utils/AttributesUtils.kt:59-62 | when every componentwise union exists, there is one per zipped pair, as many as the shorter tuple has |
| Attributes.DimUnionAll | plugin/compiler-plugin/src/main/kotlin/shapeTyping/plugin/checkers/utils/AttributesUtils.kt:92 | one dimUnion per zipped pair of dims |
| Attributes.UnionOfRelated | plugin/compiler-plugin/src/main/kotlin/shapeTyping/plugin/checkers/utils/AttributesUtils.kt:52-55 | when one type is a subtype of the other, the union is the larger one; an error-free type joined with itself gives itself |
| Attributes.ShapeAndDimHaveNoUnion | plugin/compiler-plugin/src/main/kotlin/shapeTyping/plugin/checkers/utils/AttributesUtils.kt:56-63 | a shape and a dim have no union |
| Attributes.UnequalNumericDims | plugin/compiler-plugin/src/main/kotlin/shapeTyping/plugin/checkers/utils/AttributesUtils.kt:74 | unequal numeric dims join to the wildcard dim |
| Attributes.ErrorUnions | plugin/compiler-plugin/src/main/kotlin/shapeTyping/plugin/checkers/utils/AttributesUtils.kt:71-97 | two errors of one kind keep the left one; an error against a non-error of its kind gives the wildcard |
| Attributes.UnrelatedWildcardOrCall | plugin/compiler-plugin/src/main/kotlin/shapeTyping/plugin/checkers/utils/AttributesUtils.kt:86-97 | for unrelated shapes without errors, a wildcard or a shape function call on either side gives the wildcard shape |
| Attributes.ContainsErrorsIff | plugin/analysis/src/main/kotlin/shapeTyping/analysis/utils/GenericsUtils.kt:28 | a type contains errors exactly when it is an error or one of its dims, arguments or tuple members contains errors |
| Attributes.PlainHasNoErrors | plugin/analysis/src/main/kotlin/shapeTyping/analysis/utils/GenericsUtils.kt:28 | a plain type (no errors, no calls, no tuples, also in its bounds) contains no errors |
| Attributes.ChainPlain | plugin/compiler-plugin/src/main/kotlin/shapeTyping/plugin/checkers/utils/AttributesUtils.kt:108-109 | every bound on the chain of a plain bound is plain |
| Attributes.WalkReachesChain | plugin/compiler-plugin/src/main/kotlin/shapeTyping/plugin/checkers/utils/AttributesUtils.kt:105-120 | the bound walk answers as soon as some bound on the chain is a subtype of the target |
| Attributes.SymbolSubtypeWalks | plugin/compiler-plugin/src/main/kotlin/shapeTyping/plugin/checkers/utils/AttributesUtils.kt:54-55 | against a non-error value of its kind other than a call, a symbol is a subtype when its bound walk succeeds |
| Attributes.SymbolBelowViaChain | plugin/compiler-plugin/src/main/kotlin/shapeTyping/plugin/checkers/utils/AttributesUtils.kt:113-127 | a symbol is below every plain value of its kind that some bound on its chain is below |
| Attributes.PlainReflexive | plugin/compiler-plugin/src/main/kotlin/shapeTyping/plugin/checkers/utils/AttributesUtils.kt:54 | every plain type is a subtype of itself |
| Attributes.PlainDimBelowWildcard | plugin/compiler-plugin/src/main/kotlin/shapeTyping/plugin/checkers/utils/AttributesUtils.kt:70-78 | the default wildcard dim is above every plain dim |
| Attributes.PlainShapeBelowWildcard | plugin/compiler-plugin/src/main/kotlin/shapeTyping/plugin/checkers/utils/AttributesUtils.kt:86-97 | the default wildcard shape is above every plain shape |
| Attributes.DimUnionUpperBound | plugin/compiler-plugin/src/main/kotlin/shapeTyping/plugin/checkers/utils/AttributesUtils.kt:68-82 | the dimUnion of two plain dims is a supertype of both |
| Attributes.DimSymbolUnionUpperBound | plugin/compiler-plugin/src/main/kotlin/shapeTyping/plugin/checkers/utils/AttributesUtils.kt:117-129 | the symbolUnion of two plain dim symbols is a supertype of both |
| Attributes.ShapeSymbolUnionUpperBound | plugin/compiler-plugin/src/main/kotlin/shapeTyping/plugin/checkers/utils/AttributesUtils.kt:103-115 | the symbolUnion of two plain shape symbols is a supertype of both |
| Attributes.ChainFacts | plugin/compiler-plugin/src/main/kotlin/shapeTyping/plugin/checkers/utils/AttributesUtils.kt:108-123 | both chains of bounds keep the kind and stay plain and well-kinded |
| Attributes.SharedBoundIsUpperBound | plugin/compiler-plugin/src/main/kotlin/shapeTyping/plugin/checkers/utils/AttributesUtils.kt:110-125 | a bound on the other symbol's chain that equals one on this symbol's chain is a supertype of both symbols |
| Attributes.ChainElementFacts | plugin/compiler-plugin/src/main/kotlin/shapeTyping/plugin/checkers/utils/AttributesUtils.kt:108-109 | any single bound on the chain of a plain, well-kinded symbol has the symbol's kind and is itself plain and well-kinded |
| Attributes.EqualToChainElementIsAbove | plugin/compiler-plugin/src/main/kotlin/shapeTyping/plugin/checkers/utils/AttributesUtils.kt:110-125 | a plain value equal to some bound on a plain symbol's chain lies above that symbol |
| Attributes.LastBoundsJoinIsUpperBound | plugin/compiler-plugin/src/main/kotlin/shapeTyping/plugin/checkers/utils/AttributesUtils.kt:112-127 | any supertype of the two last bounds is a supertype of both symbols |
| Attributes.DimUnionAllUpperBound | plugin/compiler-plugin/src/main/kotlin/shapeTyping/plugin/checkers/utils/AttributesUtils.kt:90-92 | the elementwise dimUnion of plain dims is a supertype of both, position by position |
| Attributes.ShapeUnionUpperBound | plugin/compiler-plugin/src/main/kotlin/shapeTyping/plugin/checkers/utils/AttributesUtils.kt:84-101 | the shapeUnion of two plain shapes is a supertype of both |
| Attributes.UnionIsUpperBound | plugin/compiler-plugin/src/main/kotlin/shapeTyping/plugin/checkers/utils/AttributesUtils.kt:52-66 | for plain dims and shapes the union exists exactly when both have one kind, and then it is a supertype of both |
| Attributes.PairUnion | plugin/compiler-plugin/src/main/kotlin/shapeTyping/plugin/checkers/utils/AttributesUtils.kt:59-62 | two pairs whose first components are unrelated join componentwise |
| Attributes.UnionAllSingle | plugin/compiler-plugin/src/main/kotlin/shapeTyping/plugin/checkers/utils/AttributesUtils.kt:60 | one zipped pair gives its own union |
| Attributes.UnionAllCons | plugin/compiler-plugin/src/main/kotlin/shapeTyping/plugin/checkers/utils/AttributesUtils.kt:60 | the zipped unions of two extended lists are the union of the heads followed by the unions of the tails |
| Attributes.DisjointSymbolsUnion | plugin/compiler-plugin/src/test/kotlin/shapeTyping/plugin/AttributeOperationsTest.kt:18-22 | two unrelated symbols bounded by Shape join to the wildcard shape |
| Attributes.SameSymbolUnion | plugin/compiler-plugin/src/test/kotlin/shapeTyping/plugin/AttributeOperationsTest.kt:25-34 | a symbol joined with itself gives itself |
| Attributes.SubtypeSymbolUnion | plugin/compiler-plugin/src/test/kotlin/shapeTyping/plugin/AttributeOperationsTest.kt:37-41 | a symbol joined with a symbol bounded by it gives the former |
| Attributes.SharedSupertypeUnion | plugin/compiler-plugin/src/test/kotlin/shapeTyping/plugin/AttributeOperationsTest.kt:44-50 | C <: B <: A and D <: A join to A |
| Attributes.DimShapeUnion | plugin/compiler-plugin/src/test/kotlin/shapeTyping/plugin/AttributeOperationsTest.kt:53-57 | [A, 2] and [B, 2], with A and B unrelated dim symbols, are unrelated and join to [Dim, 2] |
| Attributes.SymbolsJoinToWildcard | plugin/compiler-plugin/src/main/kotlin/shapeTyping/plugin/checkers/utils/AttributesUtils.kt:117-129 | two different dim symbols bounded by Dim are unrelated and join to the wildcard dim |
| Attributes.TupleUnion | plugin/compiler-plugin/src/test/kotlin/shapeTyping/plugin/AttributeOperationsTest.kt:60-69 | ([S1, 2], A) and ([S2, 2], B <: A) join to ([Dim, 2], A) |
| Attributes.Union | plugin/compiler-plugin/src/main/kotlin/shapeTyping/plugin/checkers/utils/AttributesUtils.kt:52-66 | the join of two values, null for a shape against a dim, for unrelated classes and for tuples with a null component; `UnionIsUpperBound` proves a found join lies above both values and `UnionOfRelated` that a value related to the other is returned |
| Attributes.DimUnion | plugin/compiler-plugin/src/main/kotlin/shapeTyping/plugin/checkers/utils/AttributesUtils.kt:68-82 | `dimUnion`: equal dims join to themselves, unequal numbers to the wildcard, symbols through their bound chains; `DimUnionUpperBound` proves the join is above both |
| Attributes.DimSymbolUnion | plugin/compiler-plugin/src/main/kotlin/shapeTyping/plugin/checkers/utils/AttributesUtils.kt:117-129 | the join of a dim symbol and a dim through the symbol's bound chain; `DimSymbolUnionUpperBound` proves it is above both |
| Attributes.ShapeUnion | plugin/compiler-plugin/src/main/kotlin/shapeTyping/plugin/checkers/utils/AttributesUtils.kt:84-101 | `shapeUnion`: dim shapes of equal rank join dim by dim, others through the wildcard or the bound chains; `ShapeUnionUpperBound` and `DimShapeUnion` state the result |
| Attributes.ShapeSymbolUnion | plugin/compiler-plugin/src/main/kotlin/shapeTyping/plugin/checkers/utils/AttributesUtils.kt:103-115 | the join of a shape symbol and a shape through the symbol's bound chain; `ShapeSymbolUnionUpperBound` proves it is above both |
| ShapeFunctionUtils.CheckRankIfExists | plugin/shape-functions/src/main/kotlin/shapeTyping/shapefunctions/Utils.kt:15-18 | an ErrorShape exactly when the shape is a dim shape of another rank, with an STypeFailure "must have rank n. Got m"; any other shape passes |
| ShapeFunctionUtils.CheckMinimumRankIfExists | plugin/shape-functions/src/main/kotlin/shapeTyping/shapefunctions/Utils.kt:20-23 | an ErrorShape exactly when the shape is a dim shape of smaller rank, with an STypeFailure "must have rank at least n. Got m" |
| ShapeFunctionUtils.ArgumentFailure | plugin/shape-functions/src/main/kotlin/shapeTyping/shapefunctions/Utils.kt:27 | the failure reported for an error argument is an STypeFailure of level ERROR |
| ShapeFunctionUtils.ErrorForArgumentsIsFirstError | plugin/shape-functions/src/main/kotlin/shapeTyping/shapefunctions/Utils.kt:25-30 | no failure exactly when no argument is an error; otherwise the failure is the one of the first error argument |
| ShapeFunctionUtils.GetErrorForArguments | plugin/shape-functions/src/main/kotlin/shapeTyping/shapefunctions/Utils.kt:25-30 | the indexed scan with its early return gives the failure of the first error argument |
| ShapeFunctionUtils.FirstErrorDim | plugin/shape-functions/src/main/kotlin/shapeTyping/shapefunctions/Utils.kt:26-28 | the index of the first ErrorDim from a position on, with no ErrorDim before it, or none when there is none |
| ShapeFunctionUtils.IsOne | plugin/shape-functions/src/main/kotlin/shapeTyping/shapefunctions/Utils.kt:35 | a dim is the number one exactly when it equals NumericDim(1) under the custom equals |
| ShapeFunctionUtils.ConcreteBound | plugin/shape-functions/src/main/kotlin/shapeTyping/shapefunctions/Utils.kt:52-57 | the end of the bound chain of a dim: not a symbol, and the dim itself when it is not a symbol |
| ShapeFunctionUtils.ConflictingBounds | plugin/shape-functions/src/main/kotlin/shapeTyping/shapefunctions/Utils.kt:45-65 | the two while loops end at the concrete bounds; the flag is set exactly when they are unequal numbers, or exactly one of them is an error |
| ShapeFunctionUtils.ConflictingDimsProperties | plugin/shape-functions/src/main/kotlin/shapeTyping/shapefunctions/Utils.kt:58-63 | conflict is symmetric, and two dims with the same concrete bound never conflict |
| ShapeFunctionUtils.MayNotEqual | plugin/shape-functions/src/main/kotlin/shapeTyping/shapefunctions/Utils.kt:36-37 | the "may not be exactly equal" exception has level WARNING |
| ShapeFunctionUtils.CannotBeEqual | plugin/shape-functions/src/main/kotlin/shapeTyping/shapefunctions/Utils.kt:40 | the "cannot be equal" exception is an STypeFailure of level ERROR |
| ShapeFunctionUtils.DimIntersect | plugin/shape-functions/src/main/kotlin/shapeTyping/shapefunctions/Utils.kt:34-43 | the corrected merge of two dims: it returns a dim for every pair of well-kinded dims, including the pairs on which the source never returns |
| ShapeFunctionUtils.DimIntersectReturnsDim | plugin/shape-functions/src/main/kotlin/shapeTyping/shapefunctions/Utils.kt:34-43 | whenever the source's dimIntersect returns for two well-kinded dims, it returns a dim |
| ShapeFunctionUtils.ConcreteBoundIsDim | plugin/shape-functions/src/main/kotlin/shapeTyping/shapefunctions/Utils.kt:52-57 | the concrete bound of a well-kinded dim is a well-kinded dim |
| ShapeFunctionUtils.ConcreteDimsStuck | plugin/shape-functions/src/main/kotlin/shapeTyping/shapefunctions/Utils.kt:34-63 | two concrete dims reach the recursive call exactly when they are both errors with different messages, or both wildcards with different errors |
| ShapeFunctionUtils.DimIntersectDivergesIff | plugin/shape-functions/src/main/kotlin/shapeTyping/shapefunctions/Utils.kt:38-42 | the source's dimIntersect recurses forever exactly when the dims are unequal, neither is a subtype of the other, and their concrete bounds are stuck |
| ShapeFunctionUtils.WildcardWithWarningDiverges | plugin/shape-functions/src/main/kotlin/shapeTyping/shapefunctions/Utils.kt:35-41 | a wildcard dim carrying a warning, against the plain Dim, makes the source's dimIntersect call itself with the same arguments forever |
| ShapeFunctionUtils.DimIntersectEqual | plugin/shape-functions/src/main/kotlin/shapeTyping/shapefunctions/Utils.kt:35 | equal dims give the left one when it carries an error, and the right one otherwise |
| ShapeFunctionUtils.DimIntersectKeepsSubtype | plugin/shape-functions/src/main/kotlin/shapeTyping/shapefunctions/Utils.kt:36-37 | a subtype on either side is kept, with a WARNING naming the other side |
| ShapeFunctionUtils.DimIntersectConflict | plugin/shape-functions/src/main/kotlin/shapeTyping/shapefunctions/Utils.kt:38-40 | unrelated dims with conflicting concrete bounds give an ErrorDim with the "cannot be equal" failure, in both the source's and the corrected version |
| ShapeFunctionUtils.DimIntersectNumerics | plugin/shape-functions/src/main/kotlin/shapeTyping/shapefunctions/Utils.kt:35-40 | two numbers give the right one when they are equal, and an ErrorDim otherwise |
| ShapeFunctionUtils.WildcardAgainstNumber | plugin/shape-functions/src/main/kotlin/shapeTyping/shapefunctions/Utils.kt:37 | Dim against a number gives the number, with a warning naming the wildcard |
| ShapeFunctionUtils.SymbolUnrelatedToNumber | plugin/shape-functions/src/main/kotlin/shapeTyping/shapefunctions/Utils.kt:36-37 | a symbol bounded by Dim and a number are unrelated in both directions |
| ShapeFunctionUtils.SymbolAgainstNumberExample | plugin/shape-functions/src/main/kotlin/shapeTyping/shapefunctions/Utils.kt:38-41 | a symbol bounded by Dim against a number recurses once and gives the number, warned that Dim may not be exactly equal to it |
| ShapeFunctionUtils.ErrorForArguments | plugin/shape-functions/src/main/kotlin/shapeTyping/shapefunctions/Utils.kt:25-30 | the failure for the first error argument; `ErrorForArgumentsIsFirstError` proves it names the first argument with an error, and `GetErrorForArguments` that the loop computes it |
| ShapeFunctionUtils.ContainsIrreducibleArguments | plugin/shape-functions/src/main/kotlin/shapeTyping/shapefunctions/Utils.kt:32 | some argument is a call or a symbol |
| ShapeFunctionUtils.BoundsConflict | plugin/shape-functions/src/main/kotlin/shapeTyping/shapefunctions/Utils.kt:58-63 | the `when` of `conflictingBounds` on two concrete bounds; `ConflictingBounds` proves the method computes it |
| ShapeFunctionUtils.ConflictingDims | plugin/shape-functions/src/main/kotlin/shapeTyping/shapefunctions/Utils.kt:45 | `conflictingDims`; `ConflictingDimsProperties` proves it is symmetric and false for equal dims |
| ShapeFunctionUtils.DimIntersectAsWritten | plugin/shape-functions/src/main/kotlin/shapeTyping/shapefunctions/Utils.kt:34-43 | `dimIntersect` as written; `DimIntersectDivergesIff` proves it never returns exactly on `Stuck` pairs and otherwise agrees with `DimIntersect` |
| ShapeFunctionUtils.Stuck | plugin/shape-functions/src/main/kotlin/shapeTyping/shapefunctions/Utils.kt:34-43 | the concrete pairs on which the last branch of `dimIntersect` calls itself again unchanged; `ConcreteDimsStuck` and `WildcardWithWarningDiverges` exhibit them |
| DimArithmetic.Arithmetic | plugin/shape-functions/src/main/kotlin/shapeTyping/shapefunctions/DimArithmetic.kt:15-36 | on dims, any result is a dim |
| DimArithmetic.Plus | plugin/shape-functions/src/main/kotlin/shapeTyping/shapefunctions/DimArithmetic.kt:15-24 | any result of plus is a dim |
| DimArithmetic.Times | plugin/shape-functions/src/main/kotlin/shapeTyping/shapefunctions/DimArithmetic.kt:27-36 | any result of times is a dim |
| DimArithmetic.ArithmeticOutcomes | plugin/shape-functions/src/main/kotlin/shapeTyping/shapefunctions/DimArithmetic.kt:16-23 | an error argument gives an ErrorDim with the first error's failure, and only then; two numbers combine; a wildcard gives Dim; there is no result exactly when, with no error and no wildcard, a symbol takes part |
| DimArithmetic.ErrorsAreErrorDims | plugin/shape-functions/src/main/kotlin/shapeTyping/shapefunctions/DimArithmetic.kt:16 | among dims, the error values are exactly the ErrorDims |
| DimArithmetic.ArithmeticCommutes | plugin/shape-functions/src/main/kotlin/shapeTyping/shapefunctions/DimArithmetic.kt:19-23 | without error arguments, both functions are commutative |
| DimArithmetic.PlusTimesOnNumbers | plugin/shape-functions/src/main/kotlin/shapeTyping/shapefunctions/DimArithmetic.kt:20-32 | plus adds numbers and times multiplies them |
| DimArithmetic.Identities | plugin/shape-functions/src/main/kotlin/shapeTyping/shapefunctions/DimArithmetic.kt:20-32 | zero is the identity of plus and one the identity of times on numeric dims |
| DimArithmetic.SymbolsDoNotReduce | plugin/shape-functions/src/main/kotlin/shapeTyping/shapefunctions/DimArithmetic.kt:19-23 | a symbol against a number leaves the call unreduced, and a wildcard wins over a symbol |
| DimArithmetic.ApplyOperator | plugin/shape-functions/src/main/kotlin/shapeTyping/shapefunctions/DimArithmetic.kt:20 | the arithmetic `plus` (and, on line 32, `times`) applies to two numbers; `PlusTimesOnNumbers` states the results |
| Broadcast.BroadcastDim | plugin/shape-functions/src/main/kotlin/shapeTyping/shapefunctions/Broadcast.kt:40-52 | a broadcast dim is produced exactly for the verdicts SUCCESS and REDUCIBLE_WITHOUT_GUARANTEE |
| Broadcast.Lefts | plugin/shape-functions/src/main/kotlin/shapeTyping/shapefunctions/Broadcast.kt:58-64 | the left column has the larger rank of the two operands |
| Broadcast.Rights | plugin/shape-functions/src/main/kotlin/shapeTyping/shapefunctions/Broadcast.kt:66-68 | the right column has the same length, and from the first compared position on it holds the right operand's dims aligned to the right |
| Broadcast.FirstFailure | plugin/shape-functions/src/main/kotlin/shapeTyping/shapefunctions/Broadcast.kt:72-73 | the first failing pair from a position on, with no failure before it, or none when no pair fails |
| Broadcast.FirstFailureIs | plugin/shape-functions/src/main/kotlin/shapeTyping/shapefunctions/Broadcast.kt:66-73 | a failing pair with no failure before it is the first failure |
| Broadcast.CollectedStatusStep | plugin/shape-functions/src/main/kotlin/shapeTyping/shapefunctions/Broadcast.kt:74-79 | one loop iteration updates the collected status: NOT_REDUCIBLE overrides, REDUCIBLE_WITHOUT_GUARANTEE is only set when nothing was collected yet |
| Broadcast.OutcomeAfterLoop | plugin/shape-functions/src/main/kotlin/shapeTyping/shapefunctions/Broadcast.kt:85-90 | once every pair is compared without failure, NOT_REDUCIBLE gives null, REDUCIBLE_WITHOUT_GUARANTEE a warned dim shape, and otherwise a plain one |
| Broadcast.BroadcastDimShapes | plugin/shape-functions/src/main/kotlin/shapeTyping/shapefunctions/Broadcast.kt:54-91 | the method with its in-place list and its early return gives the result of the broadcasting specification |
| Broadcast.SpecIsAligned | plugin/shape-functions/src/main/kotlin/shapeTyping/shapefunctions/Broadcast.kt:58-64 | two non-empty operands are broadcast over their right-aligned columns |
| Broadcast.BroadcastAligned | plugin/shape-functions/src/main/kotlin/shapeTyping/shapefunctions/Broadcast.kt:66-90 | the loop merges each compared position in place, returns at the first failure, and otherwise ends with the collected outcome |
| Broadcast.PairStatusSymmetric | plugin/shape-functions/src/main/kotlin/shapeTyping/shapefunctions/Broadcast.kt:40-52 | the verdict on a pair does not depend on its order |
| Broadcast.SelfPair | plugin/shape-functions/src/main/kotlin/shapeTyping/shapefunctions/Broadcast.kt:48 | a dim against itself is kept; a wildcard gets a warning; it never fails |
| Broadcast.NumericPairs | plugin/shape-functions/src/main/kotlin/shapeTyping/shapefunctions/Broadcast.kt:42-50 | numbers succeed when equal or when one is 1, and then broadcast to the other value; otherwise they fail |
| Broadcast.WildcardPairs | plugin/shape-functions/src/main/kotlin/shapeTyping/shapefunctions/Broadcast.kt:44-47 | a wildcard against any dim other than 1 is accepted without guarantee, and a number on the other side is kept |
| Broadcast.SymbolPairs | plugin/shape-functions/src/main/kotlin/shapeTyping/shapefunctions/Broadcast.kt:49 | a symbol against a different dim that is neither 1 nor a wildcard cannot be reduced |
| Broadcast.BroadcastRank | plugin/shape-functions/src/main/kotlin/shapeTyping/shapefunctions/Broadcast.kt:58-64 | the broadcast shape has the larger rank of the two |
| Broadcast.BroadcastOutcomes | plugin/shape-functions/src/main/kotlin/shapeTyping/shapefunctions/Broadcast.kt:66-90 | an ErrorShape exactly when some compared pair fails; otherwise null exactly when some pair cannot be reduced; otherwise the merged dims, warned exactly when some pair was accepted without guarantee |
| Broadcast.BroadcastKeepsLeadingDims | plugin/shape-functions/src/main/kotlin/shapeTyping/shapefunctions/Broadcast.kt:61-64 | the leading dims of a longer right operand are kept in the result |
| Broadcast.SwapColumns | plugin/shape-functions/src/main/kotlin/shapeTyping/shapefunctions/Broadcast.kt:66-84 | swapped columns hold the same failing and unreducible pairs |
| Broadcast.SwappedColumns | plugin/shape-functions/src/main/kotlin/shapeTyping/shapefunctions/Broadcast.kt:58-64 | swapping the operands swaps the two columns and the comparison starts at 0 |
| Broadcast.SwappedStatuses | plugin/shape-functions/src/main/kotlin/shapeTyping/shapefunctions/Broadcast.kt:66-84 | swapping the operands keeps which verdicts occur among the compared pairs |
| Broadcast.BroadcastOutcomeSymmetric | plugin/shape-functions/src/main/kotlin/shapeTyping/shapefunctions/Broadcast.kt:54-91 | whether broadcasting gives null, and whether it fails, does not depend on the order of the operands |
| Broadcast.WarningDependsOnOrder | plugin/shape-functions/src/main/kotlin/shapeTyping/shapefunctions/Broadcast.kt:61-79 | the wildcard warning depends on the order: a leading wildcard of the longer operand is compared with itself, and warned about, only when that operand is on the right |
| Broadcast.PlainDimShapes | plugin/shape-functions/src/main/kotlin/shapeTyping/shapefunctions/Broadcast.kt:25-38 | two error-free dim shapes of different ranks go to broadcastDimShapes |
| Broadcast.ShorterOnTheLeft | plugin/shape-functions/src/main/kotlin/shapeTyping/shapefunctions/Broadcast.kt:61-88 | [d] against [Dim, d] gives a warned [Dim, d] |
| Broadcast.LongerOnTheLeft | plugin/shape-functions/src/main/kotlin/shapeTyping/shapefunctions/Broadcast.kt:58-66 | [Dim, d] against [d] gives [Dim, d] without warning |
| Broadcast.BroadcastCases | plugin/shape-functions/src/main/kotlin/shapeTyping/shapefunctions/Broadcast.kt:25-38 | an error operand gives an ErrorShape with the first error's failure; a wildcard shape a warned wildcard; equal operands the left one; a call or a symbol null; two dim shapes go to broadcastDimShapes |
| Broadcast.FailureAfterUnreducible | plugin/shape-functions/src/test/kotlin/shapeTyping/shapefunctions/BroadcastTest.kt:61-72 | [D1, 2] against [D2, 3] fails with the incompatible-dims message, although the first pair cannot be reduced |
| Broadcast.PairStatus | plugin/shape-functions/src/main/kotlin/shapeTyping/shapefunctions/Broadcast.kt:40-52 | the verdict of `broadcastDim` on one pair; `PairStatusSymmetric` proves it does not depend on the order of the pair |
| Broadcast.Start | plugin/shape-functions/src/main/kotlin/shapeTyping/shapefunctions/Broadcast.kt:58-64 | the first compared position: the rank difference when the left operand is longer, else 0; `SwappedColumns` relates it under swapping |
| Broadcast.MergedDim | plugin/shape-functions/src/main/kotlin/shapeTyping/shapefunctions/Broadcast.kt:80-82 | the dim `broadcastDim` writes back at a compared position; `SelfPair`, `NumericPairs` and `WildcardPairs` state its value |
| Broadcast.FailureMessage | plugin/shape-functions/src/main/kotlin/shapeTyping/shapefunctions/Broadcast.kt:73 | the message of the failure on the first incompatible pair, naming both operands and both dims |
| Broadcast.BroadcastDimShapesSpec | plugin/shape-functions/src/main/kotlin/shapeTyping/shapefunctions/Broadcast.kt:54-91 | the specification the in-place method `BroadcastDimShapes` is proved to compute; `BroadcastOutcomes` proves it fails exactly when a compared pair fails and gives null exactly when a pair cannot be reduced |
| Broadcast.AlignedOutcome | plugin/shape-functions/src/main/kotlin/shapeTyping/shapefunctions/Broadcast.kt:66-90 | the outcome of comparing the aligned columns from the start position; `BroadcastAligned` proves the loop computes it |
| Broadcast.CollectedStatus | plugin/shape-functions/src/main/kotlin/shapeTyping/shapefunctions/Broadcast.kt:65-79 | the status the loop has collected over a range of positions; `CollectedStatusStep` proves one iteration updates it by `Collect` |
| Broadcast.Collect | plugin/shape-functions/src/main/kotlin/shapeTyping/shapefunctions/Broadcast.kt:74-79 | one pair's update of the collected status: NOT_REDUCIBLE overrides, REDUCIBLE_WITHOUT_GUARANTEE only fills an empty status |
| Broadcast.Broadcast | plugin/shape-functions/src/main/kotlin/shapeTyping/shapefunctions/Broadcast.kt:25-38 | `broadcast`; `BroadcastCases` proves an error operand gives its failure, a wildcard operand a warned wildcard, equal operands themselves and symbols null |
| Concat.ConcatOutcomes | plugin/shape-functions/src/main/kotlin/shapeTyping/shapefunctions/Concat.kt:19-30 | the first error operand's failure; for two dim shapes, the dims one after the other, so that the rank is the sum and each operand is a slice of the result; a warned wildcard when a wildcard shape takes part; otherwise null, exactly when a symbol or call takes part |
| Concat.ConcatAssociative | plugin/shape-functions/src/test/kotlin/shapeTyping/shapefunctions/ConcatTest.kt:16-22 | concatenation of error-free dim shapes is associative |
| Concat.Concat | plugin/shape-functions/src/main/kotlin/shapeTyping/shapefunctions/Concat.kt:19-30 | `concat`; `ConcatOutcomes` proves two error-free dim shapes concatenate their dims, a wildcard gives a warned wildcard, and `ConcatAssociative` that it is associative on dim shapes |
| ConcatOnAxis.NewDim | plugin/shape-functions/src/main/kotlin/shapeTyping/shapefunctions/ConcatOnAxis.kt:32-37 | each slot of the result is a dim |
| ConcatOnAxis.NewDims | plugin/shape-functions/src/main/kotlin/shapeTyping/shapefunctions/ConcatOnAxis.kt:32-37 | one slot per position: the sum (or Dim) on the axis, and the merged dims elsewhere |
| ConcatOnAxis.ConcatDimShapesOutcomes | plugin/shape-functions/src/main/kotlin/shapeTyping/shapefunctions/ConcatOnAxis.kt:27-46 | an ErrorShape exactly when the ranks differ, the axis is out of range or some slot is an ErrorDim, with the message of each case; otherwise an error-free dim shape of the same rank holding the slots |
| ConcatOnAxis.ConcatOnAxisCases | plugin/shape-functions/src/main/kotlin/shapeTyping/shapefunctions/ConcatOnAxis.kt:15-25 | the first error argument's failure; two dim shapes and a numeric axis go to concatDimShapes; otherwise a wildcard shape gives a warned wildcard, and anything else null |
| ConcatOnAxis.ConcatWildcardAxisExample | plugin/shape-functions/src/test/kotlin/shapeTyping/shapefunctions/ConcatOnAxisTest.kt:82-87 | equal dim shapes joined on a wildcard axis give back the same dims |
| ConcatOnAxis.ConcatNumbersExample | plugin/shape-functions/src/test/kotlin/shapeTyping/shapefunctions/ConcatOnAxisTest.kt:19-25 | numbers add up on the axis and must agree elsewhere |
| ConcatOnAxis.ConcatMismatchExample | plugin/shape-functions/src/test/kotlin/shapeTyping/shapefunctions/ConcatOnAxisTest.kt:28-34 | unequal numbers off the axis make the whole result an ErrorShape with an STypeFailure |
| ConcatOnAxis.ConcatOnAxis | plugin/shape-functions/src/main/kotlin/shapeTyping/shapefunctions/ConcatOnAxis.kt:15-25 | `concatOnAxis`; `ConcatOnAxisCases` proves an error argument gives its failure, dim shapes with a number go to concatDimShapes, a wildcard gives a warned wildcard and anything else null |
| ConcatOnAxis.ConcatDimShapes | plugin/shape-functions/src/main/kotlin/shapeTyping/shapefunctions/ConcatOnAxis.kt:27-46 | `concatDimShapes`; `ConcatDimShapesOutcomes` states when it fails and what its dims are |
| ConcatOnAxis.MismatchedRanks | plugin/shape-functions/src/main/kotlin/shapeTyping/shapefunctions/ConcatOnAxis.kt:29 | the failure message for operands of different ranks |
| ConcatOnAxis.AxisOutOfRange | plugin/shape-functions/src/main/kotlin/shapeTyping/shapefunctions/ConcatOnAxis.kt:30 | the failure message for an axis outside the operands' rank |
| ConcatOnAxis.NewDimWhereSourceDiverges | plugin/shape-functions/src/main/kotlin/shapeTyping/shapefunctions/ConcatOnAxis.kt:32-37 | off the axis, a wildcard with the "may not be exactly equal" warning against the plain `Dim`: the source's `dimIntersect` never returns, while the model's slot keeps the wildcard with the warning |
| SliceFunction.ErrorsInDims | plugin/shape-functions/src/main/kotlin/shapeTyping/shapefunctions/Slice.kt:18-20 | only the three dim arguments are checked for errors: none is an error exactly when the check passes, and otherwise the first erroneous one, in the order start, end, axis, is reported |
| SliceFunction.SliceOutcomes | plugin/shape-functions/src/main/kotlin/shapeTyping/shapefunctions/Slice.kt:17-39 | every outcome of slice: the first erroneous dim's failure; no result for a symbol or a call; an ERROR for an axis outside [0, rank) or an end before the start; no result when the axis dim is not a number; a wildcard shape for a wildcard shape; no result otherwise |
| SliceFunction.SliceResult | plugin/shape-functions/src/main/kotlin/shapeTyping/shapefunctions/Slice.kt:29-34 | a successful slice keeps the rank and every other dim, and the axis dim becomes min(size, end) - start, which is at most end - start and at most size - start, and not negative when the start lies within the axis |
| SliceFunction.FullSliceIsIdentity | plugin/shape-functions/src/main/kotlin/shapeTyping/shapefunctions/Slice.kt:29-34 | slicing from 0 to the axis size or beyond gives the shape back unchanged |
| SliceFunction.StartBeyondAxisIsNegative | plugin/shape-functions/src/main/kotlin/shapeTyping/shapefunctions/Slice.kt:27-32 | the start is never checked against the axis size, so a start beyond it (with an end equal to it) yields a negative dim |
| SliceFunction.Min | plugin/shape-functions/src/main/kotlin/shapeTyping/shapefunctions/Slice.kt:31 | the minimum is no larger than either argument and is one of them |
| SliceFunction.AxisInvalid | plugin/shape-functions/src/main/kotlin/shapeTyping/shapefunctions/Slice.kt:26 | the failure message for an axis outside the shape's rank |
| SliceFunction.EndBeforeStart | plugin/shape-functions/src/main/kotlin/shapeTyping/shapefunctions/Slice.kt:28 | the failure message for an end before the start |
| SliceFunction.Slice | plugin/shape-functions/src/main/kotlin/shapeTyping/shapefunctions/Slice.kt:17-40 | `slice`; `SliceOutcomes` and `SliceResult` prove which branch is taken and that the axis becomes min(dim, end) - start with the other dims unchanged |
| Flatten.TimesOrDimCases | plugin/shape-functions/src/main/kotlin/shapeTyping/shapefunctions/Flatten.kt:29 | the reducing step multiplies two numbers, gives an ErrorDim exactly when either side is one, and otherwise falls back to the plain Dim |
| Flatten.ReduceTimesOutcome | plugin/shape-functions/src/main/kotlin/shapeTyping/shapefunctions/Flatten.kt:28-31 | the collapsed dim is an ErrorDim exactly when one of the collapsed dims is; over numbers alone it is the number holding their product; with no error and some non-number among two or more dims it is the plain Dim |
| Flatten.ErrorsOfFlatten | plugin/shape-functions/src/main/kotlin/shapeTyping/shapefunctions/Flatten.kt:17-19 | the argument check passes exactly when neither the shape nor the count is an error, and otherwise reports the shape's failure before the count's |
| Flatten.FlattenOutcomes | plugin/shape-functions/src/main/kotlin/shapeTyping/shapefunctions/Flatten.kt:16-37 | every outcome of flatten: the first erroneous argument's failure; no result for a symbol or a call; an ERROR for a count outside [0, rank]; a wildcard shape for a wildcard shape |
| Flatten.FlattenResult | plugin/shape-functions/src/main/kotlin/shapeTyping/shapefunctions/Flatten.kt:26-32 | a successful flatten keeps the first n dims and appends one dim collapsing the rest, so the rank is n + 1 below the full rank and n at it |
| Flatten.FlattenNumbers | plugin/shape-functions/src/main/kotlin/shapeTyping/shapefunctions/Flatten.kt:26-32 | flattening [x, y, z] after the first axis gives [x, y * z] |
| Flatten.TimesOrDim | plugin/shape-functions/src/main/kotlin/shapeTyping/shapefunctions/Flatten.kt:29 | the reducing step `times(x, y) ?: WildcardDim.DEFAULT`; `TimesOrDimCases` states its value for numbers, wildcards and symbols |
| Flatten.ReduceTimes | plugin/shape-functions/src/main/kotlin/shapeTyping/shapefunctions/Flatten.kt:28-31 | the left fold of the suffix by `TimesOrDim`; `ReduceTimesOutcome` proves it is an ErrorDim exactly when a collapsed dim is one, and the product when all are numbers |
| Flatten.InvalidArguments | plugin/shape-functions/src/main/kotlin/shapeTyping/shapefunctions/Flatten.kt:25 | the failure message for a number of kept axes outside 0..rank |
| Flatten.FlattenedDims | plugin/shape-functions/src/main/kotlin/shapeTyping/shapefunctions/Flatten.kt:27-32 | the kept prefix followed by the product of the rest; `FlattenResult` proves its rank and contents |
| Flatten.Flatten | plugin/shape-functions/src/main/kotlin/shapeTyping/shapefunctions/Flatten.kt:16-38 | `flatten`; `FlattenOutcomes` proves errors give their failure, a bad count the invalid-arguments failure, a dim shape with a number the flattened dims, a wildcard the wildcard and anything else null |
| Matmul.BatchDimMatchCases | plugin/shape-functions/src/main/kotlin/shapeTyping/shapefunctions/Matmul.kt:65-89 | batch matching returns equal dims unchanged, passes errors on (the first argument's first), lets a 1 yield the other dim, is an ERROR for two different numbers or two different symbols, gives a warned wildcard for two different wildcards, and across dim classes keeps the numeric, else the symbolic dim with a WARNING |
| Matmul.BatchNumbers | plugin/shape-functions/src/main/kotlin/shapeTyping/shapefunctions/Matmul.kt:65-78 | batching two numbers follows the broadcasting rule: equal sizes pass, a 1 stretches to the other size, any other pair is an ERROR |
| Matmul.BatchDimMatchSymmetric | plugin/shape-functions/src/main/kotlin/shapeTyping/shapefunctions/Matmul.kt:65-89 | for error-free arguments, swapping them gives an ErrorDim together, and otherwise results equal under the dims' own equality |
| Matmul.PaddedA | plugin/shape-functions/src/main/kotlin/shapeTyping/shapefunctions/Matmul.kt:50 | the left operand as a matrix has rank at least 2, which is 2 for a rank-1 operand and its own rank otherwise |
| Matmul.PaddedB | plugin/shape-functions/src/main/kotlin/shapeTyping/shapefunctions/Matmul.kt:51 | the right operand as a matrix has rank at least 2, which is 2 for a rank-1 operand and its own rank otherwise |
| Matmul.Max | plugin/shape-functions/src/main/kotlin/shapeTyping/shapefunctions/Matmul.kt:52 | the maximum is no smaller than either argument and is one of them |
| Matmul.BatchDims | plugin/shape-functions/src/main/kotlin/shapeTyping/shapefunctions/Matmul.kt:91-97 | there are result rank minus 2 batch dims, each the batch match of the two operands' right-aligned dims, a missing dim reading as 1 |
| Matmul.InnerWarning | plugin/shape-functions/src/main/kotlin/shapeTyping/shapefunctions/Matmul.kt:57-63 | the inner-dim warning is present exactly when the inner dims differ or one of them is a wildcard, and is at WARNING level |
| Matmul.MatmulDimShapesFails | plugin/shape-functions/src/main/kotlin/shapeTyping/shapefunctions/Matmul.kt:49-99 | the product of two dim shapes is an error shape exactly when the inner dims conflict or a batch dim is an ErrorDim, and an inner-dim conflict is an ERROR-level failure |
| Matmul.MatmulDimShapesResult | plugin/shape-functions/src/main/kotlin/shapeTyping/shapefunctions/Matmul.kt:91-99 | a successful product has the rank of the larger padded operand and is the error-free batch dims followed by m and n, carrying the inner-dim warning as its error |
| Matmul.RankZero | plugin/shape-functions/src/main/kotlin/shapeTyping/shapefunctions/Utils.kt:20-23 | the rank-check message for an operand of rank 0 names the operand and says it must have rank at least 1 |
| Matmul.MatmulRankChecks | plugin/shape-functions/src/main/kotlin/shapeTyping/shapefunctions/Matmul.kt:18-19 | a rank-0 dim shape is rejected before any other check, the left operand before the right |
| Matmul.MatmulErrors | plugin/shape-functions/src/main/kotlin/shapeTyping/shapefunctions/Matmul.kt:21-26 | past the rank checks, the first erroneous operand's failure is returned, and otherwise there is no result exactly when an operand is a symbol or a call |
| Matmul.MatmulReduces | plugin/shape-functions/src/main/kotlin/shapeTyping/shapefunctions/Matmul.kt:25-46 | two dim shapes go to the dim-shape product, two wildcards give [Dim, Dim] with a warning, and error-free reducible operands are always dim shapes or wildcards, so the unsupported-arguments branch is unreachable |
| Matmul.WildcardOperands | plugin/shape-functions/src/main/kotlin/shapeTyping/shapefunctions/Matmul.kt:31-44 | against a wildcard, the product keeps the dims the other operand fixes (rows on the left, columns on the right), puts Dim for the rest, and carries a WARNING |
| Matmul.Unbatched | plugin/shape-functions/src/main/kotlin/shapeTyping/shapefunctions/Matmul.kt:49-99 | when both operands pad to matrices there are no batch dims: the product is [m, n] or the inner-dim conflict |
| Matmul.MatrixTimesMatrix | plugin/shape-functions/src/main/kotlin/shapeTyping/shapefunctions/Matmul.kt:49-99 | [m, k1] x [k2, n] is an ERROR when the inner dims conflict and otherwise [m, n] with the inner-dim warning, if any |
| Matmul.VectorTimesMatrix | plugin/shape-functions/src/main/kotlin/shapeTyping/shapefunctions/Matmul.kt:50 | a left vector is padded with a leading 1, which stays in the product: [k1] x [k2, n] = [1, n] |
| Matmul.MatrixTimesVector | plugin/shape-functions/src/main/kotlin/shapeTyping/shapefunctions/Matmul.kt:51 | a right vector is padded with a trailing 1, which stays in the product: [m, k1] x [k2] = [m, 1] |
| Matmul.OneBatchDim | plugin/shape-functions/src/main/kotlin/shapeTyping/shapefunctions/Matmul.kt:91-97 | a single batch dim against a matrix is matched against the missing 1 |
| Matmul.BatchTimesMatrix | plugin/shape-functions/src/main/kotlin/shapeTyping/shapefunctions/Matmul.kt:91-99 | [p, m, k1] x [k2, n] is [p', m, n], where p' is p matched against 1 |
| Matmul.NumericProducts | plugin/shape-functions/src/test/kotlin/shapeTyping/shapefunctions/MatmulTest.kt:18-24 | [m, k] x [k, n] = [m, n] without a warning, and the padding 1 of a vector operand stays in the result |
| Matmul.BatchMismatch | plugin/shape-functions/src/main/kotlin/shapeTyping/shapefunctions/Matmul.kt:77-78 | two different batch sizes, neither of them 1, make the product an ERROR |
| Matmul.DimOperands | plugin/shape-functions/src/main/kotlin/shapeTyping/shapefunctions/Matmul.kt:49 | dim shapes of rank 1 to 3 over well-formed dims are valid operands of the dim-shape product |
| Matmul.Reducible | plugin/shape-functions/src/main/kotlin/shapeTyping/shapefunctions/Matmul.kt:26 | operands that are neither symbols nor calls contain no irreducible argument |
| Matmul.SameSymbol | plugin/shape-functions/src/test/kotlin/shapeTyping/shapefunctions/MatmulTest.kt:27-34 | [3, A] x [A, 4] = [3, 4] without a warning |
| Matmul.PossiblyEqualSymbols | plugin/shape-functions/src/test/kotlin/shapeTyping/shapefunctions/MatmulTest.kt:37-61 | two different symbols whose bounds are unknown or shared give [3, 4] with a WARNING |
| Matmul.ConflictingSymbols | plugin/shape-functions/src/test/kotlin/shapeTyping/shapefunctions/MatmulTest.kt:64-73 | two symbols bounded by different numbers make the product an ERROR-level failure |
| Matmul.IncompatibleBatching | plugin/shape-functions/src/main/kotlin/shapeTyping/shapefunctions/Matmul.kt:78 | the failure message for two different batch numbers or symbols |
| Matmul.MayNotBeCompatible | plugin/shape-functions/src/main/kotlin/shapeTyping/shapefunctions/Matmul.kt:83-86 | the warning a batch dim gets when the two classes differ |
| Matmul.IncompatibleInner | plugin/shape-functions/src/main/kotlin/shapeTyping/shapefunctions/Matmul.kt:59 | the failure message for conflicting inner dims |
| Matmul.InnerNotGuaranteed | plugin/shape-functions/src/main/kotlin/shapeTyping/shapefunctions/Matmul.kt:60-61 | the warning for inner dims not known to be equal; `InnerWarning` states when it is given |
| Matmul.BatchDimMatch | plugin/shape-functions/src/main/kotlin/shapeTyping/shapefunctions/Matmul.kt:65-89 | `batchDimMatch`, returning a dim; `BatchDimMatchCases` and `BatchNumbers` state its result for each pair of classes and `BatchDimMatchSymmetric` its symmetry |
| Matmul.Aligned | plugin/shape-functions/src/main/kotlin/shapeTyping/shapefunctions/Matmul.kt:94-95 | the batch dim of an operand at a position of the result, right-aligned, 1 where the operand has none |
| Matmul.M | plugin/shape-functions/src/main/kotlin/shapeTyping/shapefunctions/Matmul.kt:54 | the rows of the padded left operand; `MatmulDimShapesResult` puts it second to last |
| Matmul.K1 | plugin/shape-functions/src/main/kotlin/shapeTyping/shapefunctions/Matmul.kt:54 | the inner dim of the padded left operand; `MatmulDimShapesFails` compares it with `K2` |
| Matmul.K2 | plugin/shape-functions/src/main/kotlin/shapeTyping/shapefunctions/Matmul.kt:55 | the inner dim of the padded right operand |
| Matmul.N | plugin/shape-functions/src/main/kotlin/shapeTyping/shapefunctions/Matmul.kt:55 | the columns of the padded right operand; `MatmulDimShapesResult` puts it last |
| Matmul.MatmulDimShapes | plugin/shape-functions/src/main/kotlin/shapeTyping/shapefunctions/Matmul.kt:49-99 | `matmulDimShapes`; `MatmulDimShapesFails` proves it fails exactly on conflicting inner dims or a failing batch dim, and `MatmulDimShapesResult` gives the batch dims, m and n with the inner warning |
| Matmul.WildcardOnTheRight | plugin/shape-functions/src/main/kotlin/shapeTyping/shapefunctions/Matmul.kt:35 | the warning for a dim shape times the wildcard shape |
| Matmul.WildcardOnTheLeft | plugin/shape-functions/src/main/kotlin/shapeTyping/shapefunctions/Matmul.kt:42 | the warning for the wildcard shape times a dim shape |
| Matmul.Matmul | plugin/shape-functions/src/main/kotlin/shapeTyping/shapefunctions/Matmul.kt:17-47 | `matmul`; `MatmulRankChecks`, `MatmulErrors`, `MatmulReduces` and `WildcardOperands` state its result in each branch |
| ShapeFunctionRegistry.FirstBadInput | plugin/extensions/src/main/kotlin/shapeTyping/extensions/annotations/processors/ShapeFunctionProcessor.kt:170-174 | the first input, from a position on, whose cast to its parameter's class fails |
| ShapeFunctionRegistry.Apply | plugin/extensions/src/main/kotlin/shapeTyping/extensions/annotations/processors/ShapeFunctionProcessor.kt:166-180 | the generated apply succeeds exactly when the number of inputs matches the parameters and every cast succeeds; a wrong count throws IllegalArgumentException, and a failed cast throws ClassCastException |
| ShapeFunctionRegistry.ApplyReturnsItsKind | plugin/extensions/src/main/kotlin/shapeTyping/extensions/ShapeFunctionExtension.kt:27-37 | every result of apply is of the function's declared return class: a shape for the shape functions, a dim for plus and times |
| ShapeFunctionRegistry.Registry.constructor | plugin/extensions/src/main/kotlin/shapeTyping/extensions/ShapeFunctionExtension.kt:52-58 | the table starts with the entries the extension point supplies |
| ShapeFunctionRegistry.Registry.Get | plugin/extensions/src/main/kotlin/shapeTyping/extensions/ShapeFunctionExtension.kt:52 | a lookup finds an entry exactly when the name is a key, and then it is the entry stored under it |
| ShapeFunctionRegistry.Registry.RegisterExtension | plugin/extensions/src/main/kotlin/shapeTyping/extensions/ShapeFunctionExtension.kt:39-44 | a name already present is a fatal duplicate-name error that changes nothing; otherwise the extension is stored under its name and every other entry is kept; either way the name is then present |
| ShapeFunctionRegistry.BuiltinExtension | plugin/extensions/src/main/kotlin/shapeTyping/extensions/ShapeFunctionExtension.kt:16-20 | each built-in extension is filed under its own name with its own implementation |
| ShapeFunctionRegistry.NamesDistinct | plugin/extensions/src/main/kotlin/shapeTyping/extensions/ShapeFunctionExtension.kt:39-41 | two built-ins have the same name exactly when they are the same function, so registering them never collides |
| ShapeFunctionRegistry.AllBuiltinsListed | plugin/extensions/src/main/kotlin/shapeTyping/extensions/ShapeFunctionExtension.kt:39-44 | every built-in is in the list that gets registered |
| ShapeFunctionRegistry.TableOfContents | plugin/extensions/src/main/kotlin/shapeTyping/extensions/ShapeFunctionExtension.kt:39-44 | after registering the first n built-ins, exactly their names are keys, each mapped to its own extension |
| ShapeFunctionRegistry.RegisterBuiltins | plugin/extensions/src/main/kotlin/shapeTyping/extensions/ShapeFunctionExtension.kt:39-58 | registering every built-in into an empty table never raises the duplicate-name error and leaves exactly the built-in names, each mapped to its own implementation |
| ShapeFunctionRegistry.Name | plugin/extensions/src/main/kotlin/shapeTyping/extensions/ShapeFunctionExtension.kt:20 | the registered name of each built-in; `NamesDistinct` proves the names are distinct |
| ShapeFunctionRegistry.Parameters | plugin/extensions/src/main/kotlin/shapeTyping/extensions/ShapeFunctionExtension.kt:25 | the declared parameter classes of each built-in; `Apply` checks its arity and casts against them |
| ShapeFunctionRegistry.ReturnType | plugin/extensions/src/main/kotlin/shapeTyping/extensions/ShapeFunctionExtension.kt:30 | the declared return class; `ApplyReturnsItsKind` proves a result is of it |
| ShapeFunctionRegistry.CastsSucceed | plugin/extensions/src/main/kotlin/shapeTyping/extensions/annotations/processors/ShapeFunctionProcessor.kt:171-174 | every input is of its parameter's class; `Apply` succeeds exactly when the arity matches and this holds |
| ShapeFunctionRegistry.KindClassName | plugin/extensions/src/main/kotlin/shapeTyping/extensions/annotations/processors/ShapeFunctionProcessor.kt:171-174 | the class name a generated cast targets |
| ShapeFunctionRegistry.TableOf | plugin/extensions/src/main/kotlin/shapeTyping/extensions/ShapeFunctionExtension.kt:39-58 | the table after registering the first n built-ins; `TableOfContents` proves its keys are their names and `RegisterBuiltins` that registration produces it |
| Evaluator.AsShape | plugin/compiler-plugin/src/main/kotlin/shapeTyping/plugin/analysis/Utils.kt:41 | the cast of apply's result keeps a null or a shape and fails exactly on a dim |
| Evaluator.EvaluateShapeFunctionCall | plugin/compiler-plugin/src/main/kotlin/shapeTyping/plugin/analysis/Utils.kt:31-43 | a call evaluates, when it succeeds, to a shape or to an unknown-function error value |
| Evaluator.CallOutcomes | plugin/compiler-plugin/src/main/kotlin/shapeTyping/plugin/analysis/Utils.kt:31-43 | every outcome of evaluating one call: an unknown name gives the resolution error value; a failing apply or cast fails; a null result gives the call back; an error on the result is re-raised with the same message and level as an error of this call; an error-free result is returned as it is |
| Evaluator.DimFunctionsFailTheCast | plugin/compiler-plugin/src/main/kotlin/shapeTyping/plugin/analysis/Utils.kt:41 | plus and times return dims, so whenever they reduce the evaluator's cast to Shape fails with ClassCastException |
| Evaluator.ShapeFunctionsYieldShapes | plugin/compiler-plugin/src/main/kotlin/shapeTyping/plugin/analysis/Utils.kt:31-43 | a registered shape function whose apply succeeds always evaluates to a shape |
| Evaluator.ReducedCall | plugin/compiler-plugin/src/main/kotlin/shapeTyping/plugin/analysis/Utils.kt:41-42 | a registered function whose apply returns an error-free shape evaluates to exactly that shape |
| Evaluator.Substituted | plugin/compiler-plugin/src/main/kotlin/shapeTyping/plugin/checkers/STypeEvaluator.kt:20-21 | substitution happens only for a value with symbols and a non-empty map; otherwise the value is kept |
| Evaluator.EvaluateAll | plugin/compiler-plugin/src/main/kotlin/shapeTyping/plugin/checkers/STypeEvaluator.kt:24 | evaluating a list succeeds with one result per element, each the element's own evaluation, and otherwise fails with the failure of one of its elements |
| Evaluator.CallFreeIsUnchanged | plugin/compiler-plugin/src/main/kotlin/shapeTyping/plugin/checkers/STypeEvaluator.kt:16-30 | with no substitutions, a value that contains no calls evaluates to itself |
| Evaluator.CallFreeAllUnchanged | plugin/compiler-plugin/src/main/kotlin/shapeTyping/plugin/checkers/STypeEvaluator.kt:24 | with no substitutions, a list of call-free values evaluates to itself |
| Evaluator.EmptyMapStep | plugin/compiler-plugin/src/main/kotlin/shapeTyping/plugin/checkers/STypeEvaluator.kt:20-29 | with no substitutions, a value that is not a call evaluates to itself, once the elements of a tuple do |
| Evaluator.SymbolFreeIgnoresMap | plugin/compiler-plugin/src/main/kotlin/shapeTyping/plugin/checkers/STypeEvaluator.kt:20-21 | the substitution map matters only through symbols: a symbol-free value evaluates the same under any map |
| Evaluator.SymbolFreeAllIgnoreMap | plugin/compiler-plugin/src/main/kotlin/shapeTyping/plugin/checkers/STypeEvaluator.kt:24 | a list of symbol-free values evaluates the same under any map |
| Evaluator.TupleShape | plugin/compiler-plugin/src/main/kotlin/shapeTyping/plugin/checkers/STypeEvaluator.kt:27 | a tuple evaluates to a tuple of the same length that keeps its error |
| Evaluator.CallsEvaluateToShapes | plugin/compiler-plugin/src/main/kotlin/shapeTyping/plugin/checkers/STypeEvaluator.kt:23-26 | a call evaluates to a shape or to an unknown-function error, or the evaluation fails |
| Evaluator.FlatCall | plugin/compiler-plugin/src/main/kotlin/shapeTyping/plugin/checkers/STypeEvaluator.kt:23-26 | with no substitutions, a call whose arguments hold no calls is applied to its arguments as they stand |
| Evaluator.UnknownFunction | plugin/compiler-plugin/src/main/kotlin/shapeTyping/plugin/analysis/Utils.kt:34-35 | an unregistered name evaluates to the "could not be resolved" error value, whatever the arguments |
| Evaluator.MatmulThroughEvaluator | plugin/compiler-plugin/src/main/kotlin/shapeTyping/plugin/analysis/Utils.kt:31-43 | matmul([m, k], [k, n]) evaluates through the registered table to [m, n] |
| Evaluator.MatmulApplied | plugin/extensions/src/main/kotlin/shapeTyping/extensions/annotations/processors/ShapeFunctionProcessor.kt:166-180 | the generated apply of matmul, given [m, k] and [k, n], returns [m, n] |
| Evaluator.PlusThroughEvaluator | plugin/compiler-plugin/src/main/kotlin/shapeTyping/plugin/analysis/Utils.kt:41 | plus(v, w) reduces to the dim v + w, which the evaluator's cast to Shape rejects |
| Evaluator.PlusApplied | plugin/extensions/src/main/kotlin/shapeTyping/extensions/annotations/processors/ShapeFunctionProcessor.kt:166-180 | the generated apply of plus, given the numbers v and w, returns the number v + w |
| Evaluator.BuiltinLookup | plugin/extensions/src/main/kotlin/shapeTyping/extensions/ShapeFunctionExtension.kt:39-44 | the registered table files each built-in under its name |
| Evaluator.GetGeneralSType | plugin/compiler-plugin/src/main/kotlin/shapeTyping/plugin/analysis/Utils.kt:45-52 | the general form keeps a dim a dim and a shape a shape |
| Evaluator.GeneralAll | plugin/compiler-plugin/src/main/kotlin/shapeTyping/plugin/analysis/Utils.kt:46-50 | the general forms of a list, element by element |
| Evaluator.GeneralForms | plugin/compiler-plugin/src/main/kotlin/shapeTyping/plugin/analysis/Utils.kt:45-52 | a dim shape keeps its rank and its numeric dims; every other shape becomes Shape and every other dim Dim; a number stays; a tuple stays a tuple of the same length |
| Evaluator.GeneralIsGeneral | plugin/compiler-plugin/src/main/kotlin/shapeTyping/plugin/analysis/Utils.kt:45-52 | the general form contains no symbols and no calls and is its own general form |
| Evaluator.GeneralIsPlain | plugin/compiler-plugin/src/main/kotlin/shapeTyping/plugin/analysis/Utils.kt:46-50 | the general form of a value contains no symbols and no calls |
| Evaluator.GeneralAllArePlain | plugin/compiler-plugin/src/main/kotlin/shapeTyping/plugin/analysis/Utils.kt:46-50 | the general forms of a list contain no symbols and no calls |
| Evaluator.GeneralIsFixed | plugin/compiler-plugin/src/main/kotlin/shapeTyping/plugin/analysis/Utils.kt:46-50 | the general form of a value is its own general form |
| Evaluator.GeneralAllAreFixed | plugin/compiler-plugin/src/main/kotlin/shapeTyping/plugin/analysis/Utils.kt:46-50 | taking the general forms of a list twice gives the same list as taking them once |
| Evaluator.UnresolvedMessage | plugin/compiler-plugin/src/main/kotlin/shapeTyping/plugin/analysis/Utils.kt:35 | the ShapeFunctionResolutionError message for a name missing from the registry; `UnknownFunction` proves such a call evaluates to the unknown-class error with it |
| Evaluator.EvaluateSType | plugin/compiler-plugin/src/main/kotlin/shapeTyping/plugin/checkers/STypeEvaluator.kt:16-30 | `evaluateSType`; `CallFreeIsUnchanged` proves a call-free value is unchanged, `CallsEvaluateToShapes` that a call evaluates to a shape or to the unknown-function error unless it fails, `SymbolFreeIgnoresMap` that the map does not matter for symbol-free values |
| Evaluator.SymbolFreeStep | plugin/compiler-plugin/src/main/kotlin/shapeTyping/plugin/checkers/STypeEvaluator.kt:16-30 | for a symbol-free value whose children evaluate alike under two maps, the value itself evaluates alike |
| Lexing.CharToken | plugin/compiler-plugin/src/main/kotlin/shapeTyping/plugin/synthetic/parsing/Lexing.kt:29-33 | a one-character token holds that character as its text and spans exactly one offset |
| Lexing.RunEnd | plugin/compiler-plugin/src/main/kotlin/shapeTyping/plugin/synthetic/parsing/Lexing.kt:96-100 | a run of a character class from a position ends at the first character outside the class, or at the end of the text |
| Lexing.RunEndUnique | plugin/compiler-plugin/src/main/kotlin/shapeTyping/plugin/synthetic/parsing/Lexing.kt:96-100 | any end position before which every character is in the class and at which the class stops is the run's end |
| Lexing.KeywordType | plugin/compiler-plugin/src/main/kotlin/shapeTyping/plugin/synthetic/parsing/Lexing.kt:101-105 | a name is typed SHAPE exactly when it is "Shape", DIM exactly when it is "Dim", and IDENTIFIER otherwise |
| Lexing.Step | plugin/compiler-plugin/src/main/kotlin/shapeTyping/plugin/synthetic/parsing/Lexing.kt:62-87 | one step of lexing moves strictly forwards and stays within the text |
| Lexing.StepFails | plugin/compiler-plugin/src/main/kotlin/shapeTyping/plugin/synthetic/parsing/Lexing.kt:65-86 | one step fails exactly at a character that starts no token: anything outside the token alphabet, ":" outside declarations, or "<" not followed by ":" in a declaration or anywhere else; the message names the character and its offset |
| Lexing.StepFacts | plugin/compiler-plugin/src/main/kotlin/shapeTyping/plugin/synthetic/parsing/Lexing.kt:62-87 | a step's token is well lexed and spans exactly the characters the step consumed, and dropped whitespace is exactly one whitespace character |
| Lexing.StepLexed | plugin/compiler-plugin/src/main/kotlin/shapeTyping/plugin/synthetic/parsing/Lexing.kt:62-87 | a step that succeeds yields a well-lexed token starting at the position and ending where the step ends, or skips exactly one whitespace character when whitespace is not kept |
| Lexing.RunStepLexed | plugin/compiler-plugin/src/main/kotlin/shapeTyping/plugin/synthetic/parsing/Lexing.kt:72-74 | at a name, number or whitespace character the step reads a well-lexed run of that class, or skips the one whitespace character when whitespace is not kept |
| Lexing.CharTokenLexed | plugin/compiler-plugin/src/main/kotlin/shapeTyping/plugin/synthetic/parsing/Lexing.kt:66-77 | a one-character token lies within the text and its text is the character it covers |
| Lexing.RunTokenLexed | plugin/compiler-plugin/src/main/kotlin/shapeTyping/plugin/synthetic/parsing/Lexing.kt:92-133 | a name, number or whitespace token, started at a character of its class, is a maximal run and is well lexed |
| Lexing.LexedTokens | plugin/compiler-plugin/src/main/kotlin/shapeTyping/plugin/synthetic/parsing/Lexing.kt:60-90 | every token of a successful lexing is well lexed and lies within the rest of the text, and the tokens come in increasing, non-overlapping order |
| Lexing.LexFailure | plugin/compiler-plugin/src/main/kotlin/shapeTyping/plugin/synthetic/parsing/Lexing.kt:75-85 | a lexing fails only at a character that starts no token, with the message naming that character and its offset |
| Lexing.LexSucceeds | plugin/compiler-plugin/src/main/kotlin/shapeTyping/plugin/synthetic/parsing/Lexing.kt:62-88 | a text whose every character can start a token lexes without failure |
| Lexing.LexedTexts | plugin/compiler-plugin/src/main/kotlin/shapeTyping/plugin/synthetic/parsing/Lexing.kt:60-90 | lexing loses nothing but whitespace: with whitespace kept the token texts spell out the input, and without it they spell out the input with its whitespace removed |
| Lexing.NoWhitespaceInTokens | plugin/compiler-plugin/src/main/kotlin/shapeTyping/plugin/synthetic/parsing/Lexing.kt:65-86 | a token other than whitespace holds no whitespace character |
| Lexing.NonWhitespace | plugin/compiler-plugin/src/main/kotlin/shapeTyping/plugin/synthetic/parsing/Lexing.kt:74 | the text with its whitespace dropped holds no whitespace character |
| Lexing.StrictBoundExample | plugin/compiler-plugin/src/test/kotlin/shapeTyping/plugin/parsing/LexingTest.kt:113-136 | "A <:Dim" in a declaration lexes to the name A, the two-character strict-subtype operator at offsets 2 to 4, and the base type Dim |
| Lexing.ColonOutsideDeclarations | plugin/compiler-plugin/src/test/kotlin/shapeTyping/plugin/parsing/LexingTest.kt:105-110 | ":" outside a declaration fails with "Invalid token : at 1" |
| Lexing.LoneAngle | plugin/compiler-plugin/src/test/kotlin/shapeTyping/plugin/parsing/LexingTest.kt:138-143 | "<" not followed by ":" fails with "Invalid token < at" its offset |
| Lexing.LexStream.constructor | plugin/compiler-plugin/src/main/kotlin/shapeTyping/plugin/synthetic/parsing/Lexing.kt:13-14 | a stream starts at the first of the given tokens |
| Lexing.LexStream.Peek | plugin/compiler-plugin/src/main/kotlin/shapeTyping/plugin/synthetic/parsing/Lexing.kt:16 | peeking gives the token under the cursor, and nothing exactly at the end |
| Lexing.LexStream.Consume | plugin/compiler-plugin/src/main/kotlin/shapeTyping/plugin/synthetic/parsing/Lexing.kt:17 | consuming returns the peeked token and advances the cursor by one exactly when there was one |
| Lexing.STypeLexer.constructor | plugin/compiler-plugin/src/main/kotlin/shapeTyping/plugin/synthetic/parsing/Lexing.kt:52-54 | a lexer starts at the beginning of its input in its parse mode |
| Lexing.STypeLexer.Peek | plugin/compiler-plugin/src/main/kotlin/shapeTyping/plugin/synthetic/parsing/Lexing.kt:56-57 | peeking gives the character under the cursor, and nothing exactly at the end |
| Lexing.STypeLexer.Consume | plugin/compiler-plugin/src/main/kotlin/shapeTyping/plugin/synthetic/parsing/Lexing.kt:58 | consuming returns the peeked character and advances by one exactly when there was one |
| Lexing.STypeLexer.Lex | plugin/compiler-plugin/src/main/kotlin/shapeTyping/plugin/synthetic/parsing/Lexing.kt:60-90 | lexing yields, in a fresh stream at its start, exactly the tokens the reference lexing produces from the current position, or fails with its failure; a success leaves the lexer's cursor at the end of the input |
| Lexing.STypeLexer.NextToken | plugin/compiler-plugin/src/main/kotlin/shapeTyping/plugin/synthetic/parsing/Lexing.kt:63-87 | one pass of the lexing loop reads the token, or the dropped whitespace, that the reference step reads, and ends where that step ends |
| Lexing.STypeLexer.LexIdentifier | plugin/compiler-plugin/src/main/kotlin/shapeTyping/plugin/synthetic/parsing/Lexing.kt:92-107 | a name is lexed exactly from an identifier start: the longest run of identifier characters, typed by its keyword, with offsets matching its length; otherwise the "Invalid start to identifier" failure and no input consumed |
| Lexing.STypeLexer.LexInt | plugin/compiler-plugin/src/main/kotlin/shapeTyping/plugin/synthetic/parsing/Lexing.kt:109-122 | a number is lexed exactly from a digit: the longest run of digits, with offsets matching its length; otherwise the "Expected Int in decimal base" failure and no input consumed |
| Lexing.STypeLexer.LexWhitespace | plugin/compiler-plugin/src/main/kotlin/shapeTyping/plugin/synthetic/parsing/Lexing.kt:124-133 | whitespace is lexed as the longest run of whitespace, with offsets matching its length |
| Lexing.ParsingError | plugin/analysis/src/main/kotlin/shapeTyping/analysis/exceptions/STypeExceptions.kt:42 | the STypeParsingError the lexer and parser throw, with its message; `LexFailure` proves every lexing failure is one |
| Lexing.InvalidToken | plugin/compiler-plugin/src/main/kotlin/shapeTyping/plugin/synthetic/parsing/Lexing.kt:78-85 | the message for a character no token starts with, with its position; `ColonOutsideDeclarations` and `LoneAngle` exhibit it |
| Lexing.IsJavaIdentifierStart | plugin/compiler-plugin/src/main/kotlin/shapeTyping/plugin/synthetic/parsing/Lexing.kt:72 | the ASCII letters, `_` and `$`, at which `lex` starts an identifier token |
| Lexing.IsJavaIdentifierPart | plugin/compiler-plugin/src/main/kotlin/shapeTyping/plugin/synthetic/parsing/Lexing.kt:96 | identifier parts: starts, digits and the ignorable control characters; `RunEnd` munches the maximal run of them |
| Lexing.IsWhitespace | plugin/compiler-plugin/src/main/kotlin/shapeTyping/plugin/synthetic/parsing/Lexing.kt:74 | `Char.isWhitespace` restricted to ASCII; `NoWhitespaceInTokens` proves no returned token is whitespace |
| Lexing.InClass | plugin/compiler-plugin/src/main/kotlin/shapeTyping/plugin/synthetic/parsing/Lexing.kt:92-133 | membership in the run class being munched; `RunEndUnique` proves a run ends at the first character outside it |
| Lexing.RunToken | plugin/compiler-plugin/src/main/kotlin/shapeTyping/plugin/synthetic/parsing/Lexing.kt:92-133 | the identifier, number or whitespace token of the maximal run at a position; `RunTokenLexed` proves it is well lexed |
| Lexing.LexFrom | plugin/compiler-plugin/src/main/kotlin/shapeTyping/plugin/synthetic/parsing/Lexing.kt:60-90 | the tokens from a position on, or the first error; `LexedTokens`, `LexSucceeds` and `LexedTexts` prove the tokens are well lexed and in order, that lexing succeeds when every character can start a token, and that the texts spell the input without its whitespace |
| Lexing.Lexed | plugin/compiler-plugin/src/main/kotlin/shapeTyping/plugin/synthetic/parsing/Lexing.kt:52-90 | what `lex` returns on a fresh lexer; `STypeLexer.Lex` proves the lexer class computes it |
| Lexing.WellLexed | plugin/compiler-plugin/src/main/kotlin/shapeTyping/plugin/synthetic/parsing/Lexing.kt:60-133 | what every lexed token satisfies: it covers its own text, runs are maximal and names are typed by `KeywordType`; `LexedTokens` proves every lexed list satisfies it |
| SNodes.DataTypeOf | plugin/compiler-plugin/src/main/kotlin/shapeTyping/plugin/synthetic/parsing/SNode.kt:73-93 | shape literals are always shapes and integer literals always dims, while identifiers, calls and wildcards carry the data type recorded for them |
| SNodes.Start | plugin/compiler-plugin/src/main/kotlin/shapeTyping/plugin/synthetic/parsing/SNode.kt:10-13 | a node's start index, an identifier's own; `ParsingProperties.NodesStartAtTheirFirstToken` proves nodes start at their first token |
| SNodes.End | plugin/compiler-plugin/src/main/kotlin/shapeTyping/plugin/synthetic/parsing/SNode.kt:10-13 | a node's end index, an identifier's own |
| DeclarationInfos.DeclarationInfo.constructor | plugin/compiler-plugin/src/main/kotlin/shapeTyping/plugin/checkers/utils/Utils.kt:60 | a table starts with the given declarations, mutability and scope id |
| DeclarationInfos.DeclarationInfo.LookupInScope | plugin/compiler-plugin/src/main/kotlin/shapeTyping/plugin/checkers/utils/Utils.kt:69 | a lookup finds a declaration exactly when the name is in the table, and then it is the one filed under it |
| DeclarationInfos.DeclarationInfo.AddToScope | plugin/compiler-plugin/src/main/kotlin/shapeTyping/plugin/checkers/utils/Utils.kt:61-68 | a mutable table files the declaration under its name, replacing any earlier one and keeping every other entry; an immutable one refuses with IllegalArgumentException and changes nothing |
| DeclarationInfos.LookupIn | plugin/compiler-plugin/src/main/kotlin/shapeTyping/plugin/synthetic/parsing/Parsing.kt:224-225 | a name is found exactly when some scope has it, and then in the first scope that has it |
| DeclarationInfos.ScopesOf | plugin/compiler-plugin/src/main/kotlin/shapeTyping/plugin/synthetic/parsing/Parsing.kt:224-225 | the tables' contents, one per table, in order |
| DeclarationInfos.LookupInInfos | plugin/compiler-plugin/src/main/kotlin/shapeTyping/plugin/synthetic/parsing/Parsing.kt:224-225 | asking the tables themselves finds what the lookup over their contents finds |
| DeclarationInfos.InnerShadowsOuter | plugin/compiler-plugin/src/main/kotlin/shapeTyping/plugin/synthetic/parsing/Parsing.kt:224-225 | a name declared in the innermost scope is found there, whatever the enclosing scopes hold |
| DeclarationInfos.MissingFallsThrough | plugin/compiler-plugin/src/main/kotlin/shapeTyping/plugin/synthetic/parsing/Parsing.kt:224-225 | a name the innermost scope lacks is looked up in the enclosing scopes |
| ParsingSpec.At | plugin/compiler-plugin/src/main/kotlin/shapeTyping/plugin/synthetic/parsing/Parsing.kt:107 | peeking at a position gives the token there, and nothing exactly past the last token |
| ParsingSpec.ParseDimOrShape | plugin/compiler-plugin/src/main/kotlin/shapeTyping/plugin/synthetic/parsing/Parsing.kt:118-133 | an element parses to nothing exactly at the end of input, and otherwise consumes at least one token |
| ParsingSpec.ParseShapeFunctionCall | plugin/compiler-plugin/src/main/kotlin/shapeTyping/plugin/synthetic/parsing/Parsing.kt:135-144 | a call's arguments never move the cursor backwards or past the last token |
| ParsingSpec.ParseArgumentList | plugin/compiler-plugin/src/main/kotlin/shapeTyping/plugin/synthetic/parsing/Parsing.kt:62-90 | an argument list is absent exactly at the end of input, and parsing it never moves the cursor backwards or past the end |
| ParsingSpec.ArgumentsLoop | plugin/compiler-plugin/src/main/kotlin/shapeTyping/plugin/synthetic/parsing/Parsing.kt:68-83 | the argument loop ends with a list, never moving the cursor backwards or past the end |
| ParsingSpec.CloseArgumentsAsWritten | plugin/compiler-plugin/src/main/kotlin/shapeTyping/plugin/synthetic/parsing/Parsing.kt:85-89 | as written, the loop's exit always yields the arguments read, ending at the cursor |
| ParsingSpec.CloseArguments | plugin/compiler-plugin/src/main/kotlin/shapeTyping/plugin/synthetic/parsing/Parsing.kt:80 | the corrected exit yields the arguments read and ends at the cursor whenever it does not report the unmatched "(" |
| ParsingSpec.ParseShapeLiteral | plugin/compiler-plugin/src/main/kotlin/shapeTyping/plugin/synthetic/parsing/Parsing.kt:146-183 | a shape literal consumes at least its opening token and stays within the input |
| ParsingSpec.DimsLoop | plugin/compiler-plugin/src/main/kotlin/shapeTyping/plugin/synthetic/parsing/Parsing.kt:158-178 | the dims loop ends with a literal, never moving the cursor backwards or past the end |
| ParsingSpec.ParseDeclaration | plugin/compiler-plugin/src/main/kotlin/shapeTyping/plugin/synthetic/parsing/Parsing.kt:92-104 | a declaration is absent exactly at the end of input, and otherwise consumes at least one token |
| ParsingSpec.DeclarationBound | plugin/compiler-plugin/src/main/kotlin/shapeTyping/plugin/synthetic/parsing/Parsing.kt:94-103 | after the declared name, reading the subtype operator and the bound either fails or yields a declaration ending strictly past the name and within the tokens |
| ParsingSpec.ParseDeclarationList | plugin/compiler-plugin/src/main/kotlin/shapeTyping/plugin/synthetic/parsing/Parsing.kt:38-60 | a declaration list is absent exactly at the end of input |
| ParsingSpec.DeclarationsLoop | plugin/compiler-plugin/src/main/kotlin/shapeTyping/plugin/synthetic/parsing/Parsing.kt:43-57 | the declaration loop ends with a list |
| ParsingSpec.AllScopes | plugin/compiler-plugin/src/main/kotlin/shapeTyping/plugin/synthetic/parsing/Parsing.kt:25-26 | the tables searched: the parser's own, when it has a scope id, before the enclosing ones; `DeclarationInfos.InnerShadowsOuter` proves an inner declaration wins |
| ParsingSpec.UnmatchedLeftParenthesis | plugin/compiler-plugin/src/main/kotlin/shapeTyping/plugin/synthetic/parsing/Parsing.kt:80 | the error for a parenthesised list with no closing parenthesis, at the list's start |
| ParsingSpec.ParseInt | plugin/compiler-plugin/src/main/kotlin/shapeTyping/plugin/synthetic/parsing/Parsing.kt:189 | `String.toInt()` on a token's text; `ParsingProperties.ParseIntRoundTrip` and `ParsingProperties.ParseIntRejects` prove it reads back the decimal text of every integer and throws NumberFormatException on a character that is neither a digit nor a leading sign |
| ParsingSpec.NewIdentifier | plugin/compiler-plugin/src/main/kotlin/shapeTyping/plugin/synthetic/parsing/Parsing.kt:200-201 | `makeIdentifier` for a new declaration: the bare name with nothing resolved |
| ParsingSpec.Reference | plugin/compiler-plugin/src/main/kotlin/shapeTyping/plugin/synthetic/parsing/Parsing.kt:202-205 | `makeIdentifier` for a reference; `ParsingProperties.ReferencesResolve` and `ParsingProperties.UnresolvedReference` prove it takes the bound, strictness and scope of the declaration found, and none when the name is declared nowhere |
| ParsingSpec.Retype | plugin/compiler-plugin/src/main/kotlin/shapeTyping/plugin/synthetic/parsing/Parsing.kt:211-217 | `retypeIdentifier`: the new data type, strictness and scope id, and the new bound or else the old one |
| ParsingSpec.ParseIdentifier | plugin/compiler-plugin/src/main/kotlin/shapeTyping/plugin/synthetic/parsing/Parsing.kt:106-116 | `parseIdentifier` for a new declaration: null at the end of input, an identifier token as a new name, any other token an error |
| ParsingSpec.Parse | plugin/compiler-plugin/src/main/kotlin/shapeTyping/plugin/synthetic/parsing/Parsing.kt:31-34 | `parse` by mode; `ParsingProperties.ParseResults` and `ParsingProperties.EmptyInputFails` prove empty input fails with the mode's message and a success is the list of its mode |
| ParsingProperties.ParseIntRoundTrip | plugin/compiler-plugin/src/main/kotlin/shapeTyping/plugin/synthetic/parsing/Parsing.kt:188-189 | reading back the decimal text of any integer, sign included, gives that integer |
| ParsingProperties.ParseIntRejects | plugin/compiler-plugin/src/main/kotlin/shapeTyping/plugin/synthetic/parsing/Parsing.kt:189 | a text with a character that is neither a digit nor a leading sign fails with NumberFormatException for that input |
| ParsingProperties.EmptyInputFails | plugin/compiler-plugin/src/main/kotlin/shapeTyping/plugin/synthetic/parsing/Parsing.kt:31-34 | with nothing to parse, argument mode fails with "No shape arguments provided" and declaration mode with "No declarations provided" |
| ParsingProperties.ParseResults | plugin/compiler-plugin/src/main/kotlin/shapeTyping/plugin/synthetic/parsing/Parsing.kt:31-60 | a successful parse gives an argument list in argument mode, leaving the scope table alone, and in declaration mode a non-empty declaration list that used up every token |
| ParsingProperties.DeclarationOutcome | plugin/compiler-plugin/src/main/kotlin/shapeTyping/plugin/synthetic/parsing/Parsing.kt:92-104 | a declaration is an identifier, "<:" (strict) or ":" (not strict), and a bound; the declared identifier takes the bound's data type and the parser's scope id, and the declaration spans the name to the bound |
| ParsingProperties.DeclarationErrors | plugin/compiler-plugin/src/main/kotlin/shapeTyping/plugin/synthetic/parsing/Parsing.kt:93-100 | the four failures before a bound is read: a token that is no name, a name at the end of input, a name followed by no subtype operator, and an operator with no bound after it, each with its message |
| ParsingProperties.DeclarationNeedsSeparator | plugin/compiler-plugin/src/main/kotlin/shapeTyping/plugin/synthetic/parsing/Parsing.kt:48-56 | a declaration followed by anything other than "," or the end of input stops the list with "Expected comma or end of declarations" naming that token |
| ParsingProperties.EnteredNothing | plugin/compiler-plugin/src/main/kotlin/shapeTyping/plugin/synthetic/parsing/Parsing.kt:45 | no declarations leave the scope table as it is |
| ParsingProperties.EnteredOneMore | plugin/compiler-plugin/src/main/kotlin/shapeTyping/plugin/synthetic/parsing/Parsing.kt:44-46 | entering one declaration and then the rest in order is entering all of them in order |
| ParsingProperties.DeclarationsLoopStep | plugin/compiler-plugin/src/main/kotlin/shapeTyping/plugin/synthetic/parsing/Parsing.kt:43-57 | one pass of the declaration loop reads a declaration, enters it and requires "," or the end of input after it |
| ParsingProperties.DeclarationsLoopRound | plugin/compiler-plugin/src/main/kotlin/shapeTyping/plugin/synthetic/parsing/Parsing.kt:48-56 | after a declaration read up to q, the loop stops at the end of input, goes on past a "," with the declaration entered, and fails on any other token |
| ParsingProperties.DeclarationsLoopNext | plugin/compiler-plugin/src/main/kotlin/shapeTyping/plugin/synthetic/parsing/Parsing.kt:44-56 | a pass of the declaration loop that succeeds reads a declaration ending strictly past the cursor and goes on from there with that declaration entered |
| ParsingProperties.DeclarationsLoopResultExtends | plugin/compiler-plugin/src/main/kotlin/shapeTyping/plugin/synthetic/parsing/Parsing.kt:44-46 | what the loop ends with after one more declaration, read with it entered, is also a valid ending for the declarations before it |
| ParsingProperties.DeclarationsLoopEnds | plugin/compiler-plugin/src/main/kotlin/shapeTyping/plugin/synthetic/parsing/Parsing.kt:43-54 | at the end of input the loop ends with the declarations read so far and the scope table as it stands |
| ParsingProperties.DeclarationsLoopOutcome | plugin/compiler-plugin/src/main/kotlin/shapeTyping/plugin/synthetic/parsing/Parsing.kt:38-60 | the declaration loop ends only at the end of input and returns every declaration read after those already read, starting where the list started; with a scope id, the declarations enter the scope table in order, and without one the table is untouched |
| ParsingProperties.ReferencesResolve | plugin/compiler-plugin/src/main/kotlin/shapeTyping/plugin/synthetic/parsing/Parsing.kt:200-205 | a name the own scope declares takes that declaration's bound, strictness and scope id, and its data type unless one is given; a name the own scope lacks is resolved in the outer scopes |
| ParsingProperties.UnresolvedReference | plugin/compiler-plugin/src/main/kotlin/shapeTyping/plugin/synthetic/parsing/Parsing.kt:203-205 | a name declared nowhere keeps only the data type given to it, with no bound, no strictness and no scope id |
| ParsingProperties.IdentifiersAndCalls | plugin/compiler-plugin/src/main/kotlin/shapeTyping/plugin/synthetic/parsing/Parsing.kt:123-127 | a name followed by "(" starts an untyped call of that name spanning to the end of its arguments; any other name is a reference |
| ParsingProperties.Keywords | plugin/compiler-plugin/src/main/kotlin/shapeTyping/plugin/synthetic/parsing/Parsing.kt:121-122 | the keywords Shape and Dim are identifiers of that data type, resolved like any name |
| ParsingProperties.ArgumentSeparators | plugin/compiler-plugin/src/main/kotlin/shapeTyping/plugin/synthetic/parsing/Parsing.kt:71-82 | after an argument only ",", a ")" that closes a call, or the end of input outside a call may follow; each other case fails with its message |
| ParsingProperties.ArgumentsLoopRound | plugin/compiler-plugin/src/main/kotlin/shapeTyping/plugin/synthetic/parsing/Parsing.kt:71-82 | after an argument, the token that follows decides the loop: the end of input (an error inside parentheses), a ",", a ")" (an error outside parentheses), or anything else (an error) |
| ParsingProperties.ParenthesisedListsClose | plugin/compiler-plugin/src/main/kotlin/shapeTyping/plugin/synthetic/parsing/Parsing.kt:62-90 | with the missing end-of-input check in place, a parenthesised list that parses ends at a ")" and keeps every argument read before, in order |
| ParsingProperties.CallsClose | plugin/compiler-plugin/src/main/kotlin/shapeTyping/plugin/synthetic/parsing/Parsing.kt:135-144 | a call's argument list starts at its "(" and ends at a ")" |
| ParsingProperties.EmptyShapeLiteral | plugin/compiler-plugin/src/main/kotlin/shapeTyping/plugin/synthetic/parsing/Parsing.kt:153-156 | "[]" is the empty shape literal spanning both brackets |
| ParsingProperties.DimSeparators | plugin/compiler-plugin/src/main/kotlin/shapeTyping/plugin/synthetic/parsing/Parsing.kt:159-177 | a shape-typed element of a literal is refused, and after a dim only "," or "]" may follow; the end of input is an unmatched "[" |
| ParsingProperties.DimsLoopOutcome | plugin/compiler-plugin/src/main/kotlin/shapeTyping/plugin/synthetic/parsing/Parsing.kt:158-182 | a literal that parses holds the dims read, in order, none of them shape-typed, and ends at the "]" just before the cursor |
| ParsingProperties.ShapeLiteralOutcome | plugin/compiler-plugin/src/main/kotlin/shapeTyping/plugin/synthetic/parsing/Parsing.kt:146-183 | a shape literal spans "[" to "]" and none of its elements is shape-typed |
| ParsingProperties.NodesStartAtTheirFirstToken | plugin/compiler-plugin/src/main/kotlin/shapeTyping/plugin/synthetic/parsing/SNode.kt:10-13 | every node parsed starts where its first token does |
| ParsingExamples.LaterDeclarationsResolveEarlier | plugin/compiler-plugin/src/test/kotlin/shapeTyping/plugin/parsing/ParsingTest.kt:105-160 | in "B : Shape, M <: B" with a scope id, B enters the scope before M is read, so M's bound resolves to B with B's data type and scope id, and both end up in the scope table |
| ParsingExamples.UnmatchedRightParenthesis | plugin/compiler-plugin/src/main/kotlin/shapeTyping/plugin/synthetic/parsing/Parsing.kt:77-78 | "A)" as arguments fails with "Unmatched right parenthesis )" at the argument's offset |
| ParsingExamples.UnclosedCall | plugin/compiler-plugin/src/test/kotlin/shapeTyping/plugin/parsing/ParsingTest.kt:235-261 | "f(A" as arguments fails with "Unmatched left parenthesis (" at the "(" |
| ParsingExamples.UnclosedCallAfterComma | plugin/compiler-plugin/src/main/kotlin/shapeTyping/plugin/synthetic/parsing/Parsing.kt:73-89 | as written, "f(A," parses to a call whose list looks closed; with the missing check it fails with the same unmatched "(" as "f(A" |
| ParsingExamples.ShapeInsideShapeLiteral | plugin/compiler-plugin/src/main/kotlin/shapeTyping/plugin/synthetic/parsing/Parsing.kt:162-163 | "[Shape]" fails with "Invalid argument for dimensions" at the element |
| ParsingExamples.UnclosedShapeLiteral | plugin/compiler-plugin/src/test/kotlin/shapeTyping/plugin/parsing/ParsingTest.kt:265-283 | "X : [10, <:" fails with "Expected comma or ], instead got <:" at the operator |
| ParsingExamples.MissingSeparator | plugin/compiler-plugin/src/test/kotlin/shapeTyping/plugin/parsing/ParsingTest.kt:310-328 | "B : Shape M <: Dim" fails with "Expected comma or end of declarations, instead got M" at M |
| ParsingExamples.MissingBound | plugin/compiler-plugin/src/test/kotlin/shapeTyping/plugin/parsing/ParsingTest.kt:286-307 | "B : Shape, M, C" fails with "Expected parameter declaration with bound, got ," |
| Parsing.Parser.ScopesAreOwnThenOuter | plugin/compiler-plugin/src/main/kotlin/shapeTyping/plugin/synthetic/parsing/Parsing.kt:24-26 | names are searched in the parser's own table, when it has one, before the enclosing tables |
| Parsing.Parser.constructor | plugin/compiler-plugin/src/main/kotlin/shapeTyping/plugin/synthetic/parsing/Parsing.kt:17-26 | a parser with a scope id starts with a fresh, empty table of its own for that scope |
| Parsing.Parser.Parse | plugin/compiler-plugin/src/main/kotlin/shapeTyping/plugin/synthetic/parsing/Parsing.kt:31-34 | parsing computes the reference parse for the parser's mode from the cursor, both the node and the resulting own table, or throws its failure |
| Parsing.Parser.ParseDeclarationList | plugin/compiler-plugin/src/main/kotlin/shapeTyping/plugin/synthetic/parsing/Parsing.kt:38-60 | the declaration list computed is the reference one, and the own table afterwards is the one the reference declaration loop leaves |
| Parsing.Parser.EnterIntoScope | plugin/compiler-plugin/src/main/kotlin/shapeTyping/plugin/synthetic/parsing/Parsing.kt:45 | with a scope id the own table files the declaration under its name, and without one nothing changes; the enclosing tables are never touched |
| Parsing.Parser.ReadDeclaration | plugin/compiler-plugin/src/main/kotlin/shapeTyping/plugin/synthetic/parsing/Parsing.kt:44-56 | one pass of the declaration loop advances the cursor and continues exactly as the reference loop does from the state before the pass |
| Parsing.Parser.NextDeclaration | plugin/compiler-plugin/src/main/kotlin/shapeTyping/plugin/synthetic/parsing/Parsing.kt:48-56 | after a declaration, the end of input stops the loop, a "," moves past it to the next token, and any other token is the "Expected comma or end of declarations" error, exactly as the reference loop continues |
| Parsing.Parser.ParseArgumentList | plugin/compiler-plugin/src/main/kotlin/shapeTyping/plugin/synthetic/parsing/Parsing.kt:62-90 | the argument list computed, and where the cursor ends, are the reference argument list's, with the unmatched "(" reported at the end of input |
| Parsing.Parser.NextArgument | plugin/compiler-plugin/src/main/kotlin/shapeTyping/plugin/synthetic/parsing/Parsing.kt:71-82 | the choice after one argument picks the next token, or throws, as the reference argument loop does |
| Parsing.Parser.ReadArgument | plugin/compiler-plugin/src/main/kotlin/shapeTyping/plugin/synthetic/parsing/Parsing.kt:68-82 | one pass of the argument loop moves the cursor strictly forwards when it succeeds, and the reference loop from the old cursor fails the same way or continues with the argument read |
| Parsing.Parser.CloseArgumentList | plugin/compiler-plugin/src/main/kotlin/shapeTyping/plugin/synthetic/parsing/Parsing.kt:80-89 | the list built when the loop ends is the reference one under the end-of-input check |
| Parsing.Parser.ParseDeclaration | plugin/compiler-plugin/src/main/kotlin/shapeTyping/plugin/synthetic/parsing/Parsing.kt:92-104 | the declaration computed, and where the cursor ends, are the reference declaration's |
| Parsing.Parser.ParseBound | plugin/compiler-plugin/src/main/kotlin/shapeTyping/plugin/synthetic/parsing/Parsing.kt:94-103 | reading the subtype operator and the bound computes the reference declaration, and the cursor ends where it ends |
| Parsing.Parser.ParseIdentifier | plugin/compiler-plugin/src/main/kotlin/shapeTyping/plugin/synthetic/parsing/Parsing.kt:106-116 | the declared name is the reference one, and the cursor moves past it exactly when one was read |
| Parsing.Parser.ParseDimOrShape | plugin/compiler-plugin/src/main/kotlin/shapeTyping/plugin/synthetic/parsing/Parsing.kt:118-133 | the element computed, and where the cursor ends, are the reference element's |
| Parsing.Parser.ParseShapeFunctionCall | plugin/compiler-plugin/src/main/kotlin/shapeTyping/plugin/synthetic/parsing/Parsing.kt:135-144 | the call computed, and where the cursor ends, are the reference call's |
| Parsing.Parser.ParseShapeLiteral | plugin/compiler-plugin/src/main/kotlin/shapeTyping/plugin/synthetic/parsing/Parsing.kt:146-183 | the shape literal computed, and where the cursor ends, are the reference literal's |
| Parsing.Parser.NextDim | plugin/compiler-plugin/src/main/kotlin/shapeTyping/plugin/synthetic/parsing/Parsing.kt:165-177 | the choice after one dim picks the next token and whether the literal is closed, or throws, as the reference dims loop does |
| Parsing.Parser.ReadDim | plugin/compiler-plugin/src/main/kotlin/shapeTyping/plugin/synthetic/parsing/Parsing.kt:158-177 | one pass of the dims loop moves the cursor strictly forwards when it succeeds, and the reference loop from the old cursor fails the same way or continues with the dim read |
| Parsing.Parser.MakeInt | plugin/compiler-plugin/src/main/kotlin/shapeTyping/plugin/synthetic/parsing/Parsing.kt:188-191 | an integer literal holds the token's value, fails with NumberFormatException when the text is no number, and consumes the token on success when asked |
| Parsing.Parser.MakeIdentifier | plugin/compiler-plugin/src/main/kotlin/shapeTyping/plugin/synthetic/parsing/Parsing.kt:193-209 | a new declaration's identifier is the bare name with the given data type and scope; a reference takes the bound, strictness and scope of the declaration it resolves to, and its data type unless one is given; the token is consumed when asked |
| Parsing.Parser.MakeWildcard | plugin/compiler-plugin/src/main/kotlin/shapeTyping/plugin/synthetic/parsing/Parsing.kt:219-222 | a wildcard spans its token and carries the given data type; the token is consumed when asked |
| Parsing.Parser.LookupInScopeAndParents | plugin/compiler-plugin/src/main/kotlin/shapeTyping/plugin/synthetic/parsing/Parsing.kt:224-225 | a name is found exactly when some scope declares it, own table first, and then it is that declaration's identifier |
| Parsing.DeclarationTextsDeclareSomething | plugin/compiler-plugin/src/main/kotlin/shapeTyping/plugin/synthetic/parsing/Parsing.kt:38-60 | a declaration text that parses declares at least one parameter, and all of its tokens are read |
| Parsing.ParseSTypeArguments | plugin/compiler-plugin/src/main/kotlin/shapeTyping/plugin/synthetic/parsing/Parsing.kt:228-236 | parsing an argument text lexes it and parses it in a fresh scope, giving the reference result for that text |
| Parsing.ParseSTypeDeclarations | plugin/compiler-plugin/src/main/kotlin/shapeTyping/plugin/synthetic/parsing/Parsing.kt:238-246 | parsing a declaration text lexes it and parses it in a fresh scope, giving the reference result for that text |
| Parsing.Parser.Own | plugin/compiler-plugin/src/main/kotlin/shapeTyping/plugin/synthetic/parsing/Parsing.kt:24 | the parser's own declarations, none without a scope id; `ScopesAreOwnThenOuter` puts it first in the search |
| Parsing.Parser.Scopes | plugin/compiler-plugin/src/main/kotlin/shapeTyping/plugin/synthetic/parsing/Parsing.kt:25-26 | the tables a name is resolved against, own before enclosing; `ScopesAreOwnThenOuter` proves the own table, when there is one, is searched before the enclosing ones |
| Parsing.ArgumentsOfText | plugin/compiler-plugin/src/main/kotlin/shapeTyping/plugin/synthetic/parsing/Parsing.kt:228-236 | what `parseSTypeArguments` returns for a text: the argument list the lexed tokens parse to, or the first error; `ParseSTypeArguments` proves the method computes it |
| Parsing.DeclarationsOfText | plugin/compiler-plugin/src/main/kotlin/shapeTyping/plugin/synthetic/parsing/Parsing.kt:238-246 | what `parseSTypeDeclarations` returns for a text; `ParseSTypeDeclarations` proves the method computes it |
| ASTTranslate.ToShapeType | plugin/compiler-plugin/src/main/kotlin/shapeTyping/plugin/synthetic/parsing/ASTTranslateUtil.kt:16-28 | a node translated as a shape yields a well-formed shape, and an integer literal throws the dim-passed-as-shape exception |
| ASTTranslate.ToDimType | plugin/compiler-plugin/src/main/kotlin/shapeTyping/plugin/synthetic/parsing/ASTTranslateUtil.kt:30-42 | a node translated as a dim yields a well-formed dim, and a call or a shape literal throws the shape-passed-as-dim exception |
| ASTTranslate.ToSType | plugin/compiler-plugin/src/main/kotlin/shapeTyping/plugin/synthetic/parsing/ASTTranslateUtil.kt:44-57 | literals and calls translate by their own kind (a call as a shape), identifiers and wildcards by their data type, and one whose data type is missing or ERROR becomes a "Datatype not inferred" error value; a result has the kind its data type names |
| ASTTranslate.ToSTypes | plugin/compiler-plugin/src/main/kotlin/shapeTyping/plugin/synthetic/parsing/ASTTranslateUtil.kt:69 | translating a list gives one well-formed value per element |
| ASTTranslate.ToDimTypes | plugin/compiler-plugin/src/main/kotlin/shapeTyping/plugin/synthetic/parsing/ASTTranslateUtil.kt:20 | translating a literal's entries gives one well-formed dim per entry |
| ASTTranslate.DeclarationsToSTypes | plugin/compiler-plugin/src/main/kotlin/shapeTyping/plugin/synthetic/parsing/ASTTranslateUtil.kt:59-67 | translating declarations gives one value per declaration |
| ASTTranslate.TranslatesEachArgument | plugin/compiler-plugin/src/main/kotlin/shapeTyping/plugin/synthetic/parsing/ASTTranslateUtil.kt:69 | a list translates element by element, in order: it succeeds exactly when every element does, its i-th value is the i-th element's, and otherwise it throws what the first failing element throws |
| ASTTranslate.TranslatesEachDim | plugin/compiler-plugin/src/main/kotlin/shapeTyping/plugin/synthetic/parsing/ASTTranslateUtil.kt:20 | a literal's entries translate as dims element by element, in order, failing with the first failing entry |
| ASTTranslate.TranslatesEachDeclaration | plugin/compiler-plugin/src/main/kotlin/shapeTyping/plugin/synthetic/parsing/ASTTranslateUtil.kt:66-67 | declarations translate element by element, in order, succeeding exactly when each does |
| ASTTranslate.ShapeLiteralsKeepRank | plugin/compiler-plugin/src/main/kotlin/shapeTyping/plugin/synthetic/parsing/ASTTranslateUtil.kt:20 | a shape literal becomes the dim shape of the same rank whose i-th dim is its i-th entry translated as a dim |
| ASTTranslate.CallsKeepTheirArguments | plugin/compiler-plugin/src/main/kotlin/shapeTyping/plugin/synthetic/parsing/ASTTranslateUtil.kt:19 | a call becomes a call of the same name on its translated arguments, in order |
| ASTTranslate.ArgumentListsBecomeTuples | plugin/compiler-plugin/src/main/kotlin/shapeTyping/plugin/synthetic/parsing/ASTTranslateUtil.kt:63-64 | an argument list of any length but one becomes a tuple of its arguments' values, of the same length and order |
| ASTTranslate.DeclarationListsBecomeTuples | plugin/compiler-plugin/src/main/kotlin/shapeTyping/plugin/synthetic/parsing/ASTTranslateUtil.kt:66-67 | a declaration list of any length but one becomes a tuple of its declarations' values, of the same length and order |
| ASTTranslate.SingleArgumentsStandAlone | plugin/compiler-plugin/src/main/kotlin/shapeTyping/plugin/synthetic/parsing/ASTTranslateUtil.kt:63 | a single argument translates to its own value, never wrapped in a tuple |
| ASTTranslate.NullDereference | plugin/compiler-plugin/src/main/kotlin/shapeTyping/plugin/synthetic/parsing/ASTTranslateUtil.kt:24 | the NullPointerException `!!` throws on a missing bound or scope id |
| ASTTranslate.DimPassedAsShape | plugin/compiler-plugin/src/main/kotlin/shapeTyping/plugin/synthetic/parsing/ASTTranslateUtil.kt:26 | the exception for a dim-only node in a shape position |
| ASTTranslate.ShapePassedAsDim | plugin/compiler-plugin/src/main/kotlin/shapeTyping/plugin/synthetic/parsing/ASTTranslateUtil.kt:40 | the exception for a shape-only node in a dim position |
| ASTTranslate.NotInferred | plugin/compiler-plugin/src/main/kotlin/shapeTyping/plugin/synthetic/parsing/ASTTranslateUtil.kt:54 | the unknown-class error for an identifier or wildcard without a data type |
| ASTTranslate.DeclarationToSType | plugin/compiler-plugin/src/main/kotlin/shapeTyping/plugin/synthetic/parsing/ASTTranslateUtil.kt:59-61 | the declared identifier's value; `TranslatesEachDeclaration` proves lists of declarations translate elementwise |
| ASTTranslate.ArgumentListToSType | plugin/compiler-plugin/src/main/kotlin/shapeTyping/plugin/synthetic/parsing/ASTTranslateUtil.kt:63-64 | a single argument stands alone, any other number becomes a tuple; `ArgumentListsBecomeTuples` and `SingleArgumentsStandAlone` prove both cases |
| ASTTranslate.DeclarationListToSType | plugin/compiler-plugin/src/main/kotlin/shapeTyping/plugin/synthetic/parsing/ASTTranslateUtil.kt:66-67 | a single declaration stands alone, any other number becomes a tuple; `DeclarationListsBecomeTuples` proves it |
| ASTTranslate.ArgumentListToSTypes | plugin/compiler-plugin/src/main/kotlin/shapeTyping/plugin/synthetic/parsing/ASTTranslateUtil.kt:69 | the arguments translated in order; `TranslatesEachArgument` proves elementwise translation |
| ASTTranslate.ShapeLeaves | plugin/compiler-plugin/src/main/kotlin/shapeTyping/plugin/synthetic/parsing/ASTTranslateUtil.kt:21-23 | in a shape position a wildcard and the name `Shape` become the default wildcard shape |
| ASTTranslate.ShapeIdentifiers | plugin/compiler-plugin/src/main/kotlin/shapeTyping/plugin/synthetic/parsing/ASTTranslateUtil.kt:22-25 | any other identifier becomes a shape symbol of its name, translated bound, strictness and scope id, failing with the NullPointerException when the bound or scope id is missing |
| ASTTranslate.DimLeaves | plugin/compiler-plugin/src/main/kotlin/shapeTyping/plugin/synthetic/parsing/ASTTranslateUtil.kt:33-36 | in a dim position an integer literal becomes its number, a wildcard and the name `Dim` the default wildcard dim |
| ASTTranslate.DimIdentifiers | plugin/compiler-plugin/src/main/kotlin/shapeTyping/plugin/synthetic/parsing/ASTTranslateUtil.kt:35-38 | any other identifier becomes a dim symbol of its name, translated bound, strictness and scope id, failing as for shapes |

## Left out

- Compiler hooks: the call interceptor, the checkers, the attribute translator and the diagnostic suppressor are left out, because they are glue over Kotlin compiler descriptors, binding contexts and diagnostics that the model cannot see. The argument/constraint pairs that the interceptor builds are an input of `Inference.LatestValidInference`.
- Scope ids: the source uses a descriptor's `hashCode` as a symbol's scope id. Here the id is an integer parameter, and the text entry points of `Parsing` take it directly instead of a descriptor.
- `getDefaultSType` and the `TypeAttributes` accessors are left out: they read Kotlin types.
- Registration plumbing is left out: the component registrar, ServiceLoader loading of user extensions, and the IntelliJ extension-point initialisation. `ShapeFunctionRegistry.Registry.constructor` takes the initial name-to-implementation map as a parameter.
- Code generation is left out: the annotation processor writes the `apply` wrappers as Java source. The model states each built-in's `apply` as the generated body would compute it, with its arity and kind checks.
- Diagnostics tables, the IDE plugin, the examples, the playground and the test scaffolding are left out: they are factories, UI, I/O and compiler environments only.
- Integer width: plus, times and `String.toInt` (`makeInt`) work on unbounded integers. The source's 32-bit wrap-around and `toInt`'s range check are not modelled.
- Character classes: the lexer's `isJavaIdentifierStart`, `isJavaIdentifierPart`, `isDigit` and `isWhitespace` are approximated by their ASCII parts only.
- Exceptions: an exception is its class name and message, compared by value, not by identity. The data classes' `hashCode` is left out. The generated arity check throws an `IllegalArgumentException` with no message (Java's null), and Kotlin's `!!` a `NullPointerException` with no message; the model writes both as the empty message (`ASTTranslate.NullDereference` for the second).
- Evaluator.EvaluateSType: the recursion is bounded by a `fuel` parameter, and running out of fuel gives a `StackOverflowError` failure. In the source, a substitution cycle through shape-function calls recurses until the JVM overflows its stack. The model proves nothing about how deep that would go.
- Substitution chains: `Generics.Substitute` and its callers require an acyclic map (`Generics.Acyclic`). On a cyclic map, `getSubstitutionIfExists` loops forever in the source, and the model does not cover that case.
- Types must be well-kinded: every member that needs them requires `STypes.WellKinded` values. These are the values Kotlin's static types allow, where a shape's dims are dims and a symbol's bound has its kind. The source's unchecked casts are not modelled beyond that.
- The fallback message in `getErrorForArguments` for an error without an exception is not modelled: a value that is an error always carries its exception.
- `LexStream.toString` is left out, because nothing in the core reads it.
- Parser entry: `parseShapeFunctionCall` is modelled with the null return type it is always called with, and `parseIdentifier` with `true` as its argument, as at every call site.
- Parser loops: the bodies of the parser's `while` loops are separate methods (`NextArgument`, `NextDim`, `ReadDeclaration`, `EnterIntoScope`), each proved against the same reference functions.
- Parser text behaviours that the model reproduces as written and does not report as findings:
  - inside "f(A,)" the call's own argument list accepts the trailing "," and stops at the ")" without consuming it, so the whole text is rejected with "Unmatched right parenthesis ) at 0" from the enclosing list;
  - "(A) B" at the top level drops `B`;
  - a ")" on its own parses to an empty argument list.
- DeclarationInfos.DeclarationInfo.constructor takes `isMutable` explicitly, because Kotlin decides it by the runtime class of the map it is given.
- Inference.SubstitutionsToSubstituteInto: modelled as a function over the input maps, and not as the loop that fills a mutable map, because the order in which that loop inserts cannot change the result.
- Broadcast.BroadcastDimShapes: the mutable list of broadcast dims is a local sequence inside the method's loop.
- Strings.Join: its contract covers only the empty and one-part cases. What the joined string looks like is pinned down by the `Serialization` lemmas that use it.
- ConcatOnAxis.NewDim, ConcatOnAxis.NewDims and ConcatOnAxis.ConcatDimShapesOutcomes merge the dims off the axis with the corrected `ShapeFunctionUtils.DimIntersect`, while `concatDimShapes` (ConcatOnAxis.kt:36) calls `dimIntersect` as written, which never returns on the pairs `ShapeFunctionUtils.Stuck` names. For example, `concatOnAxis` of [Dim carrying the "may not be exactly equal" warning, 2] and [Dim, 2] on axis 1 does not return in the source, while the model gives a dim shape whose first dim is the wildcard warned "concatOnAxis: Dim may not be exactly equal to Dim" and whose second is 4; `ConcatOnAxis.NewDimWhereSourceDiverges` states both sides for that slot (first Findings row).
- ParsingSpec.ArgumentsLoop, ParsingSpec.ParseArgumentList, Parsing.Parser.ParseArgumentList, Parsing.Parser.CloseArgumentList, Parsing.Parser.Parse and Parsing.ParseSTypeArguments use the corrected exit `ParsingSpec.CloseArguments`, so "f(A," fails with "Unmatched left parenthesis ( at 1" where Parsing.kt:73-89 returns the call as if it were closed; `ParsingSpec.CloseArgumentsAsWritten` and `ParsingExamples.UnclosedCallAfterComma` state the source's behaviour (second Findings row).
- Broadcast.Lefts: its contract states only the length. Its contents are pinned down by `Broadcast.BroadcastOutcomes` and `Broadcast.BroadcastKeepsLeadingDims`.

## Findings

| source | as written | input that shows it | evidently intended | confidence | as-written member | corrected member |
|---|---|---|---|---|---|---|
| plugin/shape-functions/src/main/kotlin/shapeTyping/shapefunctions/Utils.kt:34-43 | when no rule applies and the bounds do not conflict, `dimIntersect` calls itself on the two concrete bounds; for dims that are not symbols those are the dims themselves, so it calls itself on the same arguments forever | a wildcard dim carrying any exception, such as the "may not be exactly equal" warning, against the plain `WildcardDim` (also two error dims with different errors) | a result: the left concrete bound, an error as it stands, a wildcard with the warning | not executed | ShapeFunctionUtils.DimIntersectAsWritten | ShapeFunctionUtils.DimIntersect |
| plugin/compiler-plugin/src/main/kotlin/shapeTyping/plugin/synthetic/parsing/Parsing.kt:73-89 | in a parenthesised argument list, a "," followed by the end of input ends the loop, and the list is returned as if it were closed | "f(A," | "Unmatched left parenthesis ( at 1", as for "f(A" | not executed | ParsingSpec.CloseArgumentsAsWritten | ParsingSpec.CloseArguments |
