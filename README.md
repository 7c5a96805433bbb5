# Access-query type checking in SemanticObjects

This project is a Dafny model of three parts of the SMOL type checker, and of what can be proved about them.

- **The access-query checker** (`QueryChecker.kt`).
  - An access statement assigns the result of a SPARQL query to a variable of type `List<C>`.
  - The checker parses the query's basic graph pattern into an incidence index. The index is a map from variable nodes to the ordered set of triple edges that touch them. An edge is filed under its subject and, for a property triple, under a variable object, so a constant never gets an entry.
  - It synthesises an OWL class expression in Manchester syntax from the output variable. The expression uses `<C>`, `(<p> SOME …)`, `(<p> VALUE …)` and `(inverse(<p>) …)`, joined by ` AND ` and defaulting to `owl:Thing`.
  - It then asks a reasoner whether the class of `C` is among the expression's superclasses.
- **The diagnostics log** (`TypeErrors.kt`). This is an append-only list of messages with a line and a severity. `report` passes exactly when no entry is an ERROR, so a check that only warned still passes.
- **The class table** (`StaticTable` in `State.kt`).
  - `getSuper` looks a class up in the downward hierarchy map.
  - `getSuperMethod` walks up the ancestors of a class to the nearest one that defines a method.

Modules:
- `Wrappers` holds `Option`.
- `SmolTypes` holds the shapes of declared types.
- `Diagnostics` is the log.
- `StaticInfo` is the class table.
- `QueryGraph` holds the pattern graph: terms, triples, the incidence index, how triples are filed, and the builder's verdict `Vet`.
- `Synthesis` holds the class-expression synthesis as functions (`SynthNode`, `Contributions`, `Contribution`, `JoinAll`).
- `QueryCheck` holds the class `QueryChecker`. Its methods (`BuildTree`, `Build`, `BuildFormula`, `ExtractTypeClass`, `Check`, `TypeCheck` for the source's `type`) follow the source's control flow and are proved against those functions. A few long source functions are split into helper methods with their own contracts: the loop of `buildTree` is `FileBlock`, which files entries through `FileWhileSupported` (one entry at a time in `AddTriple`) and logs where filing stopped, the loop of `build` is `JoinEdges` (one edge at a time in `EdgeContribution`), and the tail of `type` is `FormulateAndCheck`.

Points of the code's behaviour that the model keeps:
- **The visited set.** The code keeps one visited set for the whole walk. It is never popped, and it grows across siblings as well as down a path. A revisit does not fail the synthesis: it yields Kotlin's `null`, which is spliced into the text as `"null"`.
- **The inverse cases.** Both inverse cases descend into `n.to`, which is the current node and so already visited. On every index the builder makes, an inverse edge whose subject has not been visited yet therefore contributes `(inverse(<p>) SOME null)` (`Synthesis.InverseSplicesNull`). Once its subject has been visited, no case applies and the edge contributes the empty text. Its subject is always a variable, so the inverse `VALUE` case never fires.
- **Unsupported triples.** A triple of an unsupported shape is logged as a WARNING, not as an ERROR.
- **Escaping exceptions.** Two exceptions are not caught and escape `type`:
  - A constant without `^` makes `substring(0, -1)` throw.
  - A query text the SPARQL parser refuses makes the parser throw.
  
  The model returns `Exit.Thrown` for both.
- **The `%` message.** The message for a `%` in the query is `%n constants are not supported yet`.

## Model

| member | source | states |
|---|---|---|
| Diagnostics.AppendVerdict | src/main/kotlin/no/uio/microobject/type/TypeErrors.kt:15-22 | after one more entry the log passes exactly when it passed before and the new entry is a WARNING |
| Diagnostics.WarningsOnlyPass | src/main/kotlin/no/uio/microobject/type/TypeErrors.kt:15-22 | a log holding only WARNINGs passes, whatever its length |
| Diagnostics.TypeErrorLogger.constructor | src/main/kotlin/no/uio/microobject/type/TypeErrors.kt:9-12 | a new logger has an empty log and a line offset of the standard library's line count plus two |
| Diagnostics.TypeErrorLogger.Report | src/main/kotlin/no/uio/microobject/type/TypeErrors.kt:15-22 | the result is true exactly when no entry is an ERROR; it does not depend on `silent` and changes nothing |
| Diagnostics.TypeErrorLogger.Log | src/main/kotlin/no/uio/microobject/type/TypeErrors.kt:25-28 | appends exactly one entry at the end and keeps the earlier ones; its line is the context's start line (0 without a context) minus the offset; the severity defaults to ERROR |
| StaticInfo.ParentOfFirstListing | src/main/kotlin/no/uio/microobject/runtime/State.kt:65-72 | the parent is absent exactly when no hierarchy entry lists the class; otherwise it is the key of the first entry, in iteration order, that lists it |
| StaticInfo.GetSuper | src/main/kotlin/no/uio/microobject/runtime/State.kt:65-72 | the nested search returns the parent `ParentOf` defines |
| StaticInfo.GetSuperMethod | src/main/kotlin/no/uio/microobject/runtime/State.kt:74-82 | whenever the loop exits (it reaches no parent or "Object", a class without a method table, or a class defining the method), it returns the entry of the nearest ancestor that defines the method, or nothing when a class without a method table or the end of the ancestry comes first, as `SuperMethod` defines |
| StaticInfo.NotOwnAncestor | src/main/kotlin/no/uio/microobject/runtime/State.kt:74-82 | when the ancestry of a class other than "Object" ends, the walk never comes back to that class |
| StaticInfo.SuperMethodIgnoresOwnClass | src/main/kotlin/no/uio/microobject/runtime/State.kt:75 | when the ancestry of the class ends, changing the method table of the class itself never changes the result: the search starts at its superclass and never comes back |
| StaticInfo.ResolveSkipsObject | src/main/kotlin/no/uio/microobject/runtime/State.kt:76 | the method table of "Object" is never consulted |
| StaticInfo.SuperMethodAtRoot | src/main/kotlin/no/uio/microobject/runtime/State.kt:74-82 | a class without a parent, or whose parent is "Object", finds nothing |
| StaticInfo.SuperMethodFromParent | src/main/kotlin/no/uio/microobject/runtime/State.kt:78 | a parent that defines the method supplies its own entry |
| StaticInfo.SuperMethodMissingTable | src/main/kotlin/no/uio/microobject/runtime/State.kt:77 | a parent absent from the method table ends the search with nothing, whatever further ancestors define |
| StaticInfo.AncestryEndsLookupEnds | src/main/kotlin/no/uio/microobject/runtime/State.kt:76 | an ancestry that ends at no parent or at "Object" lets every lookup exit |
| StaticInfo.CycleStillResolves | src/main/kotlin/no/uio/microobject/runtime/State.kt:74-82 | on the cycle A -> B -> A with B defining the method, the ancestry of A never ends, yet the lookup from A exits with B's entry |
| StaticInfo.SuperMethodInherits | src/main/kotlin/no/uio/microobject/runtime/State.kt:76-80 | a parent with a method table that lacks the method passes the search on: the result is the parent's own inherited entry |
| StaticInfo.DumpClassesIgnoresTable | src/main/kotlin/no/uio/microobject/runtime/State.kt:85-86 | the dump is the empty text for every table |
| QueryGraph.FileTriple | src/main/kotlin/no/uio/microobject/type/QueryChecker.kt:182-200 | a triple's edge is appended under its subject, and also under its object for a property triple with a variable object, unless it is already there; no other node's edges change |
| QueryGraph.FileTripleIdempotent | src/main/kotlin/no/uio/microobject/type/QueryChecker.kt:186-188 | filing a duplicate triple adds no second edge |
| QueryGraph.FileTripleKeepsWellFormed | src/main/kotlin/no/uio/microobject/type/QueryChecker.kt:182-200 | filing keeps the index well formed: every edge starts at a variable, is filed only under its own endpoints, and is filed at most once under each |
| QueryGraph.FileAllKeepsWellFormed | src/main/kotlin/no/uio/microobject/type/QueryChecker.kt:174-205 | filing a whole block in order keeps the index well formed |
| QueryGraph.Vet | src/main/kotlin/no/uio/microobject/type/QueryChecker.kt:139-207 | an accepted query is one parsed group of one path block whose triples are all supported; a rejection has filed only supported triples |
| QueryGraph.VetAccepts | src/main/kotlin/no/uio/microobject/type/QueryChecker.kt:139-207 | a query is accepted if and only if it has no `%`, parses, is a select, projects the output variable as required, is one path block, and has only supported triples |
| QueryGraph.VetErrors | src/main/kotlin/no/uio/microobject/type/QueryChecker.kt:141-172 | a rejection is an ERROR if and only if the query has no `%`, parses, and is not a select or has a bad projection; every other rejection is a WARNING |
| QueryGraph.PercentRejects | src/main/kotlin/no/uio/microobject/type/QueryChecker.kt:141-145 | a `%` in the query or in a configured prefix is rejected with a WARNING before anything is filed |
| Synthesis.IndexOfFirst | src/main/kotlin/no/uio/microobject/type/QueryChecker.kt:110 | the result is -1 exactly when the character is absent; otherwise it is the index of its first occurrence |
| Synthesis.ConstantText | src/main/kotlin/no/uio/microobject/type/QueryChecker.kt:110 | a constant's text is the part before its first `^` with surrounding quotes removed; there is none (the call throws) exactly when it has no `^` |
| Synthesis.SynthNode | src/main/kotlin/no/uio/microobject/type/QueryChecker.kt:106-129 | a node already visited gives null and leaves the visited set unchanged; otherwise the node is added first and the set only grows |
| Synthesis.Contributions | src/main/kotlin/no/uio/microobject/type/QueryChecker.kt:113-127 | the edges give one contribution each, in order; each is empty, a class or a parenthesised restriction; the visited set only grows across siblings |
| Synthesis.Contribution | src/main/kotlin/no/uio/microobject/type/QueryChecker.kt:115-125 | one edge gives an empty text, a class or a parenthesised restriction; an empty contribution leaves the visited set as it was |
| Synthesis.Wrap | src/main/kotlin/no/uio/microobject/type/QueryChecker.kt:117-124 | a restriction keeps the visited set the sub-walk produced and is parenthesised |
| Synthesis.InverseSplicesNull | src/main/kotlin/no/uio/microobject/type/QueryChecker.kt:121-124 | on a well-formed index an inverse edge of an unvisited subject contributes `(inverse(<p>) SOME null)` and visits nothing |
| Synthesis.JoinAllNothing | src/main/kotlin/no/uio/microobject/type/QueryChecker.kt:126 | when no edge contributes anything, the join is `owl:Thing` |
| Synthesis.JoinAllFirst | src/main/kotlin/no/uio/microobject/type/QueryChecker.kt:126 | the join is the first non-empty contribution followed by ` AND c` for every later contribution `c`, empty ones included |
| Synthesis.VariableExpression | src/main/kotlin/no/uio/microobject/type/QueryChecker.kt:107-128 | a variable visited for the first time synthesises to `owl:Thing` when no edge contributes (in particular with no edges), and otherwise to the join of its contributions |
| QueryCheck.TargetClass | src/main/kotlin/no/uio/microobject/type/QueryChecker.kt:93-104 | a target class exists if and only if the declared type is `List` whose first parameter is a plain class type, and it is that class's name; a `List` without parameters is singled out |
| QueryCheck.CheckPassesExactly | src/main/kotlin/no/uio/microobject/type/QueryChecker.kt:50-77 | the check passes if and only if the reasoner is set up, the target is a plain class, the formula parses and the target's IRI is among its superclasses; it logs something exactly when it fails |
| QueryCheck.FailedCheckFailsReport | src/main/kotlin/no/uio/microobject/type/QueryChecker.kt:50-77 | once a failed check has logged its messages, the log no longer passes |
| QueryCheck.QueryChecker.constructor | src/main/kotlin/no/uio/microobject/type/QueryChecker.kt:23-32 | a new checker has an empty index, an empty formula and an empty log |
| QueryCheck.QueryChecker.FileEdge | src/main/kotlin/no/uio/microobject/type/QueryChecker.kt:186-188 | the node's edge set, created empty when missing, gets the edge added unless it holds it |
| QueryCheck.QueryChecker.AddTriple | src/main/kotlin/no/uio/microobject/type/QueryChecker.kt:175-204 | a block entry is filed exactly when it has a supported shape, as `FileTriple` files it; an unsupported one changes nothing |
| QueryCheck.QueryChecker.FileBlock | src/main/kotlin/no/uio/microobject/type/QueryChecker.kt:174-205 | files the block's entries in order up to the first unsupported one, logs one WARNING when it stops there and nothing otherwise, and returns true exactly when every entry was filed |
| QueryCheck.QueryChecker.FileWhileSupported | src/main/kotlin/no/uio/microobject/type/QueryChecker.kt:174-205 | files the entries in order and stops exactly at the first unsupported one, returning its position; the index is `FileAll` of the entries before it |
| QueryCheck.QueryChecker.BuildTree | src/main/kotlin/no/uio/microobject/type/QueryChecker.kt:139-207 | an accepted query files all its triples and logs nothing; a rejection logs exactly its one diagnostic with its severity and keeps the triples filed before it; an unparsable text throws and changes nothing |
| QueryCheck.QueryChecker.Build | src/main/kotlin/no/uio/microobject/type/QueryChecker.kt:106-111 | the recursive walk returns the expression and the grown visited set that `SynthNode` defines: null on a revisit, the unquoted constant or a crash on a constant, and the joined edge contributions on a variable |
| QueryCheck.QueryChecker.JoinEdges | src/main/kotlin/no/uio/microobject/type/QueryChecker.kt:112-128 | the loop joins the edges' contributions, in order and threading the one visited set, exactly as `Contributions` and `JoinAll` define, and a crash in any edge ends the walk |
| QueryCheck.QueryChecker.EdgeContribution | src/main/kotlin/no/uio/microobject/type/QueryChecker.kt:113-124 | one edge's contribution, with the recursive descent into its target, is the one `Contribution` defines |
| QueryCheck.QueryChecker.BuildFormula | src/main/kotlin/no/uio/microobject/type/QueryChecker.kt:131-137 | starting with nothing visited never gives null: the formula is set to the expression and true is returned, or the walk throws and the formula is unchanged |
| QueryCheck.QueryChecker.ExtractTypeClass | src/main/kotlin/no/uio/microobject/type/QueryChecker.kt:93-104 | returns the target class name for `List` of a plain class; otherwise logs one ERROR and returns null, except that a `List` without parameters throws |
| QueryCheck.QueryChecker.Check | src/main/kotlin/no/uio/microobject/type/QueryChecker.kt:50-77 | returns what `CheckOutcome` decides and appends exactly its ERROR messages; caught exceptions become messages |
| QueryCheck.QueryChecker.FormulateAndCheck | src/main/kotlin/no/uio/microobject/type/QueryChecker.kt:40-45 | once the tree is built: a walk that throws gives the exception and changes neither the formula nor the log; otherwise the formula is the synthesised expression and the result is the check's verdict with exactly its ERROR entries appended; true logs nothing and false leaves an ERROR in the log |
| QueryCheck.QueryChecker.TypeCheck | src/main/kotlin/no/uio/microobject/type/QueryChecker.kt:34-46 | a rejected query adds a WARNING after the builder's diagnostic and returns false without checking; an accepted one returns the check's verdict, or the walk's exception with the formula and the log unchanged; an unparsable text throws and changes nothing; true logs nothing; false leaves an ERROR in the log unless the rejection was a WARNING, in which case the log passes exactly as before |
| QueryCheck.PercentQueryOnlyWarns | src/test/kotlin/no/uio/microobject/test/type/SMOLTypeTest.kt:30-33 | a statement whose query holds `%` does not type-check, yet the report of its checker passes |

## Left out

- The reasoner. HermiT, the ontology of the program (`TripleManager`), the Manchester-syntax parser and `settings.replaceKnownPrefixes` are not part of this model. A `Reasoner` value gives the following, and nothing relates these answers to OWL semantics:
  - the failure message of setting them up;
  - whether a formula parses;
  - the superclasses of a formula, both as IRIs and as printed.
- Query parsing. Apache Jena's `QueryFactory` is not part of this model. The checker is given the parse result of its text (`Option<ParsedQuery>`, None when the parser throws), with terms already tagged variable, literal or IRI and printed. No relation between the text and its parse is modelled beyond the `%` test on the text.
- Printing. `report` prints every entry unless it is silent; printing is dropped.
- The standard library's line count is a parameter. Reading `StdLib.smol` to count it is not modelled.
- The `State` class is not modelled: its copies of stack, heap and simulation memory, and the constants `VOCAB`, `HEADER` and `MINIMAL`. Nor is `StaticTable.toString`. The body of `dumpClasses` that is commented out is not modelled either.
- Type rendering. `Type.kt` is not part of this model. A declared type is rendered as `primary<p1, p2>`, and a plain class type by its name.
- Method bodies. Statements are opaque numbers.
- Exception messages. An exception that escapes `type` is identified by its class name only. The one caught exception the model produces itself, the empty-list `first()`, carries Kotlin's message "List is empty.".
- Integers are unbounded. The line arithmetic of the log does not wrap at 32 bits.
- The visited set. `Build` threads it in and out as a value. In the source it is one mutable set passed by reference. Nothing else holds that set, so no aliasing is lost.
- Ordered sets. Kotlin's insertion-ordered sets are sequences without duplicates.
- StaticInfo.GetSuperMethod: requires that the loop exits. It runs forever only on a cyclic hierarchy where every class on the cycle has a method table lacking the method, and that non-termination is not modelled.
- QueryCheck.QueryChecker.BuildTree: states the index as `FileAll` of the old index and does not restate its well-formedness. That well-formedness follows from `QueryGraph.FileAllKeepsWellFormed`.
- FMOLExecutionTest.kt is not modelled: it covers co-simulation with floating point.
