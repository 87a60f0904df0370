# A verified model of the metrics configuration generator

The program compiles a *session* — triggers, sources and reports whose fields are expression
texts — into a *metrics configuration*: one pool of shared expression nodes, items that refer to
nodes by index, and the schema files the result needs. This project models the parts of it that
carry the difficult obligations and proves what they promise, for all inputs.

**Expression compiler** (`Operators`, `Trees`, `Shunting`, `Tokenizer`, `Parser`, and the proofs
beside them). `Shunting` and `Tokenizer` state the compiler on trees: what a text means, and which
trees it pushes, as functions of its lexemes. `Parser` holds the real thing, a class with a token
stream, two stacks, a growing pool and its index of nodes; every method is proved against those
functions, in every state of the pool. `Grammar` defines the surface syntax on its own (what an
expression is, how it is written, what it means), `Reference` is a precedence-climbing parser, and
`ShuntingProof`, `TokenizerProof`, `ScanProof`, `ReferenceProof` and `ReferenceComplete` connect all of
them: the reference parser reads the text of every well-formed expression as that expression, and
whatever it accepts, nested message builders included, compiles to the tree it reads. `Regularity`,
`RegularText`, `EndOfText` and `Acceptance` give the converse its exact condition, which can be read
off the lexemes in one pass. `Grouping`, `Signs`, `Texts` and `Compounds` say what texts mean without any
of the compiler's tables, and `Refusals` and `SmallRefusals` which error the usual mistakes are refused
with. `PlainReading`, `UsualReading` and `PowerText` say exactly when the
compiled tree is the one the text would commonly be taken for, and `Surprises` has the texts where it
is not.

**Graphs** (`Graphs`, `TopologicalOrdering`). The three-colour depth-first search.

**Validation** (`Configuration`, `Validation`, `Faults`, `PoolValidation`). The structural checks on
expression nodes, what each finding stands for, and the proof that every pool the compiler can build
passes them.

**Type inference** (`Dependencies`, `TreeDeps`, `InferenceGraph`, `Resolution`, `FieldPaths`, `TreeTyping`,
`TypeErrors`, `Schemas`, `Inference`, `FieldTypes`, `InferenceSteps`, `Outcomes`, `InferenceRun`). The dependency search, the typing rules, the registry
of ad-hoc messages, and the run that processes builders in reverse topological order. The run is a
fold of steps over states (`InferenceSteps`); the class in `InferenceRun` computes it in place, for any
names. With distinct names, every builder gets a type or has its own errors recorded, and every
generated field has the type that its expression has in the final state.

**Tree shaking** (`Visibility`, `Descriptors`, `Pruning`, `Keeping`, `OutputVisibility`, `Sight`,
`TreeShaker`). Harvesting what is reached, pruning imports in place, dropping files, sorting; what the
output still sees, told by chains of public imports.

**The parts together** (`EndToEnd`, `SessionTypes`, `InferAndShake`). A compiled session is what inference
asks for, the type of a field is that of the text stashed for it, and it is settled when the files that the
generated messages import are given out before them.

**Sessions, renames, cache** (`Sessions`, `Renames`, `LegacyForm`, `LocalCache`). The link from stashed texts to pool
indices, the legacy/canonical rename passes, and the LRU cache.

`dafny verify dfyconfig.toml` checks the project.

## What the code does where one might expect otherwise

- Operands and operators need not alternate: `a b +` compiles like `a + b` (`JuxtapositionCompiles`).
- A call may take its arguments from a call inside it: `contains(abs(a, b))` compiles like
  `contains(a, abs(b))` (`ContainsBorrows`, and `BorrowedArgumentCompiles` for any two functions), for a
  comma must only stand in some call and operands are popped by each operator's own arity
  (`mcg/expressions/parse.go:240-246`, `395-402`).
- These two are all: a text is well formed if and only if it compiles without strict comparisons, its
  operands and operators alternate, and each call has the arguments its function takes; the last two
  conditions apply in builder fields too (`AcceptedJustWhen`).
- `alleq` is compiled to the operator `EQ` (`mcg/expressions/parse.go:927-956`), and so is modelled that way.
- Subscript and postfix field access share the level of `**`: `2 ** a[0]` means `(2 ** a)[0]`
  (`SubscriptTakesPower`).
- When `**` groups to the right it does not reduce a pending subscript, so `b[i] ** r` compiles to
  `b[i ** r]` (`mcg/expressions/parse.go:278-286`, `PowerEntersSubscript`). The grammar has this reading as
  a form of its own (`Raise`), so that the results hold in both modes for every text. `PlainJustWhen`
  proves that a power applies to the whole operand on its left if and only if power groups to the left
  or no `]` is directly followed by `**`; `UsualJustWhen` proves that the tree is the one in which
  subscripts and fields bind more tightly than power if and only if, besides, none of them stands on a
  power that is not in parentheses; `UsualByText` reads that off the lexemes too: none of them follows
  an operand that `**` stands right before.
- A builder whose ad-hoc name is already taken is skipped without an error, and an aggregator or
  report is then left without a type (`mcg/inference/inference.go:189-191`). `GenerateAdhocSchema` states
  that this happens if and only if the name is taken, `SharedName` is a run where it does, and what
  holds after a run is proved for distinct names.
- Every message whose name starts with `google.protobuf.` counts as part of the output
  (`mcg/inference/inference.go:242-245`), but only eleven files count as well known. A generated message
  that has such a message for a field, from a file that is not one of the eleven, imports that file;
  but nobody asks for it, so it is given out only if something else that is given out leads to it.
  `MissingJustWhen` proves that of the files noted in a run just those are missing; `GivesOutJustWhen`,
  that no run over a resolver ever misses a file if and only if every message with such a name lies in
  a well-known file; and `StrayRun` is a run that misses one, for every resolver where that is not so
  (`google.protobuf.compiler.Version` in `google/protobuf/compiler/plugin.proto`, say).

## Model

| member | source | states |
|---|---|---|
| `Trees.ViewAt` | mcg/expressions/parse.go:449-506 | every index of a bottom-up pool decodes through its own node and the trees of smaller indices |
| `Trees.ViewPrefix` | mcg/expressions/parse.go:121-137 | growing the pool changes the meaning of no earlier index |
| `Trees.ViewDistinct` | mcg/expressions/parse.go:121-137 | in a pool without repeated nodes no two indices decode to equal trees |
| `Trees.DecodeNodeInjective` | mcg/expressions/parse.go:121-137 | over distinct trees, equal decodings come from equal nodes |
| `Configuration.EmitKeepsAll` | mcg/expressions/parse.go:121-143 | a node can be read back from the form in which it is emitted |
| `Shunting.CompileRestricts` | mcg/expressions/parse.go:153-312 | for every token list, strict comparisons give the permissive result or the rejection of a chain |
| `ShuntingProof.ReadExpr` | mcg/expressions/parse.go:153-312 | reading the tokens of any well-formed expression leaves exactly its right spine pending on the two stacks, whatever was below |
| `ShuntingProof.SpineShrinks` | mcg/expressions/parse.go:354-370 | collapsing the pending spine, to any level up to its loosest operator, yields the expression's own operand, or a rejection just when the spine holds a chain |
| `ShuntingProof.CompilesToMeaning` | mcg/expressions/parse.go:153-312 | every well-formed expression compiles to its meaning; strict mode rejects it exactly when a comparison has an unparenthesised comparison operand |
| `TokenizerLaws.CollectsBalanced` | mcg/expressions/parse.go:709-750 | a field's text is exactly the lexemes up to the first comma or closing brace outside all delimiters; it is delimiter-balanced and has no colon outside them (both directions) |
| `TokenizerLaws.SourceRestricts` | mcg/expressions/parse.go:145-151 | for every text, builders included, strict mode gives the permissive tree and pushes, or rejects a chain |
| `ScanProof.SourceMeans` | mcg/expressions/parse.go:145-312 | every well-formed text, nested builders included, compiles to its meaning and pushes its nodes bottom-up; strict mode rejects it exactly when some comparison chain occurs in it or in a builder field |
| `ReferenceProof.ExprSound` | mcg/expressions/parse.go:914-925 | what the precedence-climbing parser reads is a well-formed expression spelled by exactly the lexemes it consumed |
| `ReferenceProof.AgreesWithReference` | mcg/expressions/parse.go:153-312 | every text the reference parser accepts, in both modes, compiles to the reference tree; strict mode rejects it exactly when it contains a chain |
| `ReferenceComplete.ParsesPrint` | mcg/expressions/parse.go:914-925 | the reference parser reads the text of every well-formed expression as that very expression |
| `Acceptance.ParsedCompiles` | mcg/expressions/parse.go:145-312 | a text the reference parser reads compiles in permissive mode, alternates and has all call arguments |
| `Acceptance.CompiledParses` | mcg/expressions/parse.go:145-312 | a text that compiles in permissive mode, alternates and has all call arguments is one the reference parser reads |
| `Acceptance.AcceptedJustWhen` | mcg/expressions/parse.go:145-312 | any lexemes but end of file are a well-formed text if and only if they compile in permissive mode, operands and operators alternate, and calls have the arguments they are due, in builder fields too |
| `Grouping.GroupedJustWhen` | mcg/expressions/parse.go:914-925 | the table of levels groups operators as the classes written out do: an expression is well formed if and only if it is in place and, at every operator, each operator left open on a side is of a tighter class, or of the same class on the side the class groups to (right only for a power in the right-grouping mode) |
| `Grouping.ReadsGrouped` | mcg/expressions/parse.go:914-925 | whatever the reference parser reads is grouped in that way |
| `Signs.RowMeans` | mcg/expressions/parse.go:268-312 | a row of names with signs between them, of any length, compiles to the tree whose root is the loosest sign, the last of them or, for powers in the right-grouping mode, the first, and so on downwards, with the node of each sign named by its lexeme; strict mode rejects it if and only if two comparisons have nothing looser than a comparison between them |
| `Signs.TwoSigns` | mcg/expressions/parse.go:914-956 | `a x b y c`, for all paths and all two signs: which of the two trees, and when strict mode rejects it |
| `Signs.PartsBetweenDots` | mcg/expressions/parse.go:849-865 | the parts of a path are the one list of pieces without dots that joins to the path |
| `Texts.PrefixThenSign` | mcg/expressions/parse.go:914-925 | `- a y c` and `! a y c`: the prefix operator takes just what binds more tightly than it does |
| `Texts.SignPrefixSign` | mcg/expressions/parse.go:914-925 | `a x p b y c` for any two signs and a prefix operator between them: which of the three trees |
| `Compounds.CallOne` | mcg/expressions/parse.go:830-848 | `f(a)` is the node that the name of `f` stands for, over what `a` compiles to |
| `Compounds.CallTwo` | mcg/expressions/parse.go:830-848 | the same for the three functions of two arguments |
| `Compounds.Subscripted` | mcg/expressions/parse.go:419-442 | `w[a]` is the subscript of the one by the other |
| `Compounds.EnclosedJoin` | mcg/expressions/parse.go:372-418 | `(a) x (b)`: parentheses hold together whatever is in them, and hide comparisons from the strict mode |
| `Compounds.Parenthesised` | mcg/expressions/parse.go:372-418 | parentheses that may stand do not change the tree |
| `Compounds.FieldOf` | mcg/expressions/parse.go:158-187 | `(a).f.g` is the field of what `a` compiles to, with its parts |
| `Compounds.BuilderMeans` | mcg/expressions/parse.go:678-793 | a builder with any number of fields, a type or none, a last comma or none, is the builder of what its texts compile to, each under its name, and is rejected just when one of them is |
| `Compounds.MinusNumber` | mcg/expressions/parse.go:571-596 | a minus right after an operand subtracts; right after a sign it negates the constant |
| `Compounds.Clocks` | mcg/expressions/parse.go:612-666 | `timestamp(c)` is the clock of that name, for the three there are, and an error for any other |
| `Refusals.NothingToClose` | mcg/expressions/parse.go:372-442 | `a)`, `a]` and `a,` after any text that compiles: the error of each |
| `Refusals.ParenLeftOpen` | mcg/expressions/parse.go:288-312 | `(a` is refused for its parenthesis |
| `Refusals.ParenNotClosed` | mcg/expressions/parse.go:230-256 | `(a]` and `(a,`: the error of each |
| `Refusals.BracketLeftOpen` | mcg/expressions/parse.go:288-312 | `w[a` is refused for its bracket |
| `Refusals.BracketNotClosed` | mcg/expressions/parse.go:230-256 | `w[a)` and `w[a,`: the error of each |
| `SmallRefusals.CommaAtEnd` | mcg/expressions/parse.go:257-266 | `f(a,)` is refused for its trailing comma, whatever `a` is |
| `SmallRefusals.NoRightOperand` | mcg/expressions/parse.go:449-470 | `w x` lacks an operand of the operator of `x` |
| `SmallRefusals.ParensAroundWord` | mcg/expressions/parse.go:372-418 | parentheses around nothing but a path are redundant |
| `SmallRefusals.FieldWithoutText` | mcg/expressions/parse.go:709-750 | a field without a text, or with a bracket that does not match, is refused for just that |
| `SmallRefusals.FieldErrorsCount` | mcg/expressions/parse.go:678-793 | a builder is refused as the text of its field is |
| `SmallRefusals.SameFieldTwice` | mcg/expressions/parse.go:690-703 | a second field of the same name is refused, whatever the text of the first |
| `SmallRefusals.BracketsAreSubscripts` | mcg/expressions/parse.go:420-442 | no list of tokens, however malformed, meets a bracket that is not the bracket of a subscript |
| `Surprises.JuxtapositionCompiles` | mcg/expressions/parse.go:271-312 | `a b +` compiles like `a + b`, does not alternate and is not well formed |
| `Surprises.BorrowedArgumentCompiles` | mcg/expressions/parse.go:240-246 | for functions `f` of two arguments and `g` of one, `f(g(a, b))` compiles like `f(a, g(b))`; it alternates, lacks arguments and is not well formed |
| `Surprises.ContainsBorrows` | mcg/expressions/parse.go:395-402 | so `contains(abs(a, b))` compiles like `contains(a, abs(b))` |
| `Surprises.PowerEntersSubscript` | mcg/expressions/parse.go:278-286 | where power groups to the right, `a[i] ** b` compiles like `a[i ** b]` and not to what its plain reading means |
| `Surprises.SubscriptTakesPower` | mcg/expressions/parse.go:268-273 | in both modes, `c ** a[i]` compiles like `(c ** a)[i]` and not to what its usual reading means |
| `UsualReading.UsualPrints` | mcg/expressions/parse.go:153-312 | the usual reading of an expression is written with the very same lexemes |
| `UsualReading.UsualGroups` | mcg/expressions/parse.go:914-925 | in it every subscript and field stands on a closed operand, and operators group by precedence and, for power, by the mode |
| `UsualReading.UsualMeans` | mcg/expressions/parse.go:153-312 | it means what the compiler computes exactly when no power enters a subscript and no subscript or field stands on a bare power |
| `UsualReading.UsualJustWhen` | mcg/expressions/parse.go:153-312 | an accepted text gets the tree of its usual reading if and only if no subscript or field stands on a bare power and, where power groups to the right, no `]` is directly followed by `**` |
| `PowerText.PrintClings` | mcg/expressions/parse.go:174-179 | in the text of a well-formed expression, a scan of the lexemes finds a subscript or field right after an operand that `**` stands right before, exactly when some subscript or field stands on a bare power |
| `PowerText.UsualByText` | mcg/expressions/parse.go:153-312 | so an accepted text gets the tree of its usual reading if and only if that scan finds nothing and, where power groups to the right, no `]` is directly followed by `**` |
| `PlainReading.PlainMeans` | mcg/expressions/parse.go:278-286 | reading every power as applied to the whole operand on its left gives another tree exactly when some power enters a subscript |
| `PlainReading.TextShowsRaise` | mcg/expressions/parse.go:278-286 | a power enters a subscript exactly where the text has a closing bracket directly followed by a power sign |
| `PlainReading.PlainJustWhen` | mcg/expressions/parse.go:278-286 | an accepted text gets the tree of its plain reading if and only if power groups to the left or no `]` is directly followed by `**` |
| `Parser.TokenStream.constructor` | mcg/expressions/token_stream.go:24-39 | the stream holds the lexemes, ended by an end-of-file lexeme |
| `Parser.TokenStream.Lookahead` | mcg/expressions/token_stream.go:48-55 | the lexeme `n` ahead, or end of file past the end |
| `Parser.TokenStream.Next` | mcg/expressions/token_stream.go:58-64 | returns the head and drops it, the end-of-file lexeme too; past the end it returns end of file and moves no further |
| `Parser.TokenStream.IsEOF` | mcg/expressions/token_stream.go:67-69 | whether only the end of file is left |
| `Parser.ParserShunt.PoolIsCanonical` | mcg/expressions/parse.go:121-137 | in every reachable state, indices that decode to equal trees are equal |
| `Parser.ParserShunt.PushNode` | mcg/expressions/parse.go:121-137 | returns the index of the node's tree, appending it only if the pool does not have it; nothing else changes |
| `Parser.ParserShunt.BuildCombinationNode` | mcg/expressions/parse.go:449-497 | takes the operands of an operator off the stack and builds the node of their combination, or reports a missing operand or a chain |
| `Parser.ParserShunt.CollapseOperators` | mcg/expressions/parse.go:354-370 | the stacks and the pool follow the tree-level collapse |
| `Parser.ParserShunt.HandleRightParen` | mcg/expressions/parse.go:372-418 | closes a group or a call as the tree-level machine does, including the redundant-parentheses rule |
| `Parser.ParserShunt.HandleRightSquareBracket` | mcg/expressions/parse.go:420-442 | closes a subscript as the tree-level machine does |
| `Parser.ParserShunt.HandleComma` | mcg/expressions/parse.go:230-256 | a comma reduces its argument and must stand in a call |
| `Parser.ParserShunt.HandlePath` | mcg/expressions/parse.go:158-187 | a source path is pushed; a postfix path reduces to the level of a subscript and takes the field of the operand before it |
| `Parser.ParserShunt.CompileTokens` | mcg/expressions/parse.go:153-312 | from any pool: the outcome is that of the tree-level machine, and the pool grows by the result's nodes, bottom-up; what that outcome is for texts is said, without the table of levels, by the rows of `Signs`, `Texts`, `Compounds`, `Refusals` and `SmallRefusals` |
| `Parser.ParserShunt.CollectExpr` | mcg/expressions/parse.go:709-750 | takes off the stream exactly the lexemes of one field |
| `Parser.ParserShunt.ParseTimestampFunction` | mcg/expressions/parse.go:612-666 | reads `timestamp(<clock>)` or reports the first thing wrong with it |
| `Parser.ParserShunt.TokenizeStream` | mcg/expressions/parse.go:516-599 | tokens and pool follow the tree-level tokenizer, builders being compiled on the way |
| `Parser.ParserShunt.ParseMessageBuilder` | mcg/expressions/parse.go:678-793 | reads a builder to its closing brace, compiling each field on its own; field names are new, non-empty and undotted |
| `Parser.ParserShunt.ReadSeparator` | mcg/expressions/parse.go:773-784 | after a field there is a comma or a closing brace, never anything else; a trailing comma is allowed |
| `Parser.ParserShunt.CompileOne` | mcg/expressions/parse.go:145-151 | from any reachable pool: succeeds just when the text compiles by itself, and the root decodes to the same tree |
| `Parser.ParserShunt.CompileAll` | mcg/expressions/parse.go:103-118 | fails with the error of the smallest failing key; else maps each key to the root of its own tree, and the pool is the texts' trees interned in key order |
| `Graphs.VisitSound` | mcg/graph/topological_ordering.go:49-80 | a visit keeps finished nodes distinct and all their edges forward, or returns a cycle of the graph |
| `Graphs.SearchDecides` | mcg/graph/topological_ordering.go:86-107 | whatever the order of nodes and neighbours: all nodes once with every edge forward, or a real cycle; it fails if and only if the graph is cyclic |
| `Graphs.BuildContents` | mcg/graph/graph.go:37-51 | a graph built by any edits holds exactly their nodes and edges, and every neighbour is a node |
| `Graphs.StableOrderIgnoresHistory` | mcg/graph/topological_ordering.go:125-151 | graphs with equal nodes and edges have the same stable order, or report the same cycle, however they were built |
| `TopologicalOrdering.Search.VisitNode` | mcg/graph/topological_ordering.go:49-80 | the search on colours, path and result does what the search on values does |
| `TopologicalOrdering.Search.VisitNeighbors` | mcg/graph/topological_ordering.go:59-72 | the same for a list of neighbours |
| `TopologicalOrdering.Graph.AddNode` | mcg/graph/graph.go:37-43 | adds a node, or changes nothing if it is there |
| `TopologicalOrdering.Graph.AddEdge` | mcg/graph/graph.go:47-51 | adds both nodes and the edge |
| `TopologicalOrdering.Graph.TopologicalOrder` | mcg/graph/topological_ordering.go:86-107 | a topological order or a cycle, for any iteration order of the maps |
| `TopologicalOrdering.Graph.StableTopologicalOrder` | mcg/graph/topological_ordering.go:125-151 | the order or cycle that is a function of the graph alone |
| `TopologicalOrdering.Graph.StableReverseTopologicalOrder` | mcg/graph/topological_ordering.go:156-163 | the same with every edge backward |
| `Validation.NothingFound` | mcg/validators/mc_validator.go:334-428 | there is nothing to report if and only if every node is complete: operands by arity, indices in range, one of source or expression, unique non-empty field names, known names |
| `Faults.FoundJustWhen` | mcg/validators/mc_validator.go:334-428 | a finding is reported if and only if some node has the fault it names: for every kind of finding, which nodes those are, with the name or index it mentions |
| `Validation.NewGraphForExpressionNodeCyclesChecks` | mcg/validators/graph_factory.go:184-219 | the graph has an edge for every reference between nodes, and no other |
| `Validation.McValidator.ValidateAssignments` | mcg/validators/mc_validator.go:365-381 | reports each unset or repeated field name and each unset or dangling index, in order |
| `Validation.McValidator.ValidateExpressionNodes` | mcg/validators/mc_validator.go:334-399 | appends the findings node by node, and one real cycle exactly when the references are cyclic |
| `PoolValidation.PoolPassesChecks` | mcg/validators/mc_validator.go:334-428 | the pool of a parser, after any accepted texts, has no cycle, and no finding unless a source or message type is unknown |
| `PoolValidation.PoolResolvable` | mcg/inference/expression_resolution.go:52-71 | over such a pool resolving follows smaller indices, so it terminates |
| `Dependencies.FindDeps` | mcg/validators/graph_factory.go:108-149 | on any nodes, cyclic or dangling, finds exactly the sources and inline builders reachable without passing through a builder |
| `TreeDeps.DependsOnTree` | mcg/validators/graph_factory.go:108-149 | over the pool of a parser an index depends on just the sources its tree reads outside builders, and on just the builders in it that no other builder encloses |
| `InferenceGraph.NewGraphForInferenceCycleChecks` | mcg/validators/graph_factory.go:95-172 | every source and inline builder is in the graph, and the edges are exactly the dependencies of their fields |
| `InferenceGraph.NeedsJustWhen` | mcg/validators/graph_factory.go:95-172 | an edge leads from an aggregator to what the fields assigned to it, counts aside, depend on, from an inline builder to what its fields depend on, and from nothing else |
| `Resolution.ResolveFieldPath` | mcg/inference/expression_resolution.go:182-231 | the loop over field names computes the type of the path, or its first error; which that is, `FieldPaths.PathJustWhen` and `FieldPaths.PathFailsJustWhen` say |
| `FieldPaths.FieldInJustWhen` | mcg/inference/expression_resolution.go:189-203 | a field is found if and only if it is the first of its name in the message; it is missing if and only if no field has the name, and the message if and only if it is not known |
| `FieldPaths.PathJustWhen` | mcg/inference/expression_resolution.go:182-231 | a path has a type if and only if a sequence of messages leads along the names, each but the last naming a single field of message type, and the last naming a field of that type |
| `FieldPaths.PathFailsJustWhen` | mcg/inference/expression_resolution.go:182-231 | it fails with an error if and only if such a sequence comes to a message where the next name is blocked, for the reason the error gives |
| `FieldPaths.SourceMessage` | mcg/inference/inference.go:147-169 | the message of a source, the last of its name: what is known of a data source's identifier or else the identifier, the inferred type of an aggregator or that it is not inferred yet, and an error for any other kind |
| `Resolution.ResolveLocal` | mcg/inference/expression_resolution.go:52-343 | the type of a node depends on no source and no builder type but those `FindDeps` finds |
| `TreeTyping.ResolveIsTreeType` | mcg/inference/expression_resolution.go:52-343 | resolving an index of a shared pool gives the type of the tree it stands for: sharing and the rest of the pool have no influence |
| `TypeErrors.FailsJustWhen` | mcg/inference/expression_resolution.go:52-343 | a node has no type, for a reason, if and only if that is the first thing wrong with it, operands before the node and the left one before the right |
| `Resolution.MissingIsDependency` | mcg/inference/expression_resolution.go:74-81 | a "not inferred yet" error names something the node depends on and that has no type |
| `FieldTypes.ResolveExtends` | mcg/inference/expression_resolution.go:52-343 | a type, once found, is found again in every later state, when builders have gained types and the registry has grown |
| `FieldTypes.TypesKept` | mcg/inference/inference.go:85-122 | the types given to the fields of a schema are those that any later state would give them |
| `Schemas.OutcomeTracked` | mcg/inference/inference.go:372-453 | every type named by a generated field is in the output, and its file is noted as a dependency |
| `Inference.GoodFieldsDescribe` | mcg/inference/inference.go:198-208 | without errors the generated fields are the assignments, in order, numbered 1 to n |
| `Inference.RegistryAdds` | mcg/inference/inference.go:265-275 | adding a message keeps names unique, contents unique up to name, and all types accounted for |
| `Inference.NameIsFree` | mcg/inference/inference.go:185-191 | with distinct names, a builder not yet processed never finds its name taken |
| `InferenceRun.TypeInference.NormalizeAndTrackType` | mcg/inference/inference.go:423-453 | messages outside the output become `Any`; files and enums in use are noted; unknown enums are errors |
| `InferenceRun.TypeInference.GetFieldDescriptor` | mcg/inference/inference.go:372-417 | the type of one field by its aggregation, with what it notes |
| `InferenceRun.TypeInference.GetFields` | mcg/inference/inference.go:198-214 | the fields and errors of a builder in order, and exactly the files and enums they note |
| `InferenceSteps.FieldsTracked` | mcg/inference/inference.go:423-453 | with these files and enums noted, every type a field of the builder names is in the output and its file is noted |
| `InferenceRun.TypeInference.AddOrDeduplicateAdhocMessage` | mcg/inference/inference.go:268-274 | returns the name of an equal message if there is one, else registers the new one |
| `InferenceRun.TypeInference.GenerateAdhocSchema` | mcg/inference/inference.go:185-220 | registers the schema of an aggregator or report, or removes the placeholder; it leaves the builder without a type and without an error if and only if the name is taken |
| `InferenceRun.TypeInference.GenerateAdhocSchemaForExpression` | mcg/inference/inference.go:328-369 | the same for an inline builder, which takes the name if it is taken |
| `InferenceRun.TypeInference.ValidatePredefinedMessageType` | mcg/inference/inference.go:222-238 | a given type must be supplied, and is referenced unless it is in the output |
| `InferenceRun.TypeInference.Process` | mcg/inference/inference.go:171-183 | with any names: state and errors after one builder are those of the step function |
| `InferenceSteps.StepOk` | mcg/inference/inference.go:171-220 | with distinct names a step keeps names and contents of the registry unique, types, noted files and references in order; it gives its builder a type just when its fields raise no errors, and changes no other type |
| `InferenceSteps.StepTyped` | mcg/inference/inference.go:185-220 | if the builder's dependencies have been processed, its registered message has its assignments for fields, with the types their expressions have once it is processed |
| `InferenceSteps.StepJudges` | mcg/inference/inference.go:99-122 | if the builder's dependencies have been processed, its errors are exactly those its fields raise in the state before, placeholder aside, and they are recorded |
| `InferenceSteps.PlaceholderHarmless` | mcg/inference/inference.go:193-194 | if no field depends on the builder itself, the placeholder type does not show in its schema |
| `InferenceSteps.MissingDependency` | mcg/inference/inference.go:147-169 | a field that misses a type depends on a builder that has none |
| `InferenceSteps.ErrorsExplained` | mcg/inference/inference.go:99-116 | if all dependencies have been processed, a missing type belongs to a builder already recorded as failed |
| `InferenceSteps.RunInferred` | mcg/inference/inference.go:99-122 | after any run with distinct names, over builders in a suitable order: registry and notes in order; each builder without a given type has one just when its fields raised no errors in the state in which it was processed, and then its message has its assignments for fields, of the types their expressions have in the final state, but `Any` for a message outside the output back then; exactly its own errors are recorded, once; a "not inferred yet" error follows the failure of that very builder |
| `InferenceSteps.SeenIsPrefix` | mcg/inference/inference.go:99-122 | the state in which a builder is processed is that after the run over those before it |
| `Outcomes.TakesWhatIsSaid` | mcg/inference/inference.go:309-326 | the name, the given type and the assignments taken for a builder are those of the report, of the last source of the name, or of the node; an inline builder is named by its index in decimal |
| `Outcomes.SaidIsTaken` | mcg/inference/inference.go:99-122 | and nothing but a report, an aggregator or an inline builder is taken for one |
| `Outcomes.RunSays` | mcg/inference/inference.go:99-122 | after a run, in the words of the configuration: a builder with a given type keeps it, and fails just when it is not supplied; a builder without one has failed, or has a registered message in the ad-hoc package with its fields in order, their numbers, and their types as its aggregations and expressions say |
| `Outcomes.MessagesAreNamed` | mcg/inference/inference.go:265-275 | every registered message is named after a builder of the run |
| `Outcomes.FieldsKnown` | mcg/inference/inference.go:255-263 | the fields of a message are those of the ad-hoc message of that name, or else the supplied ones |
| `InferenceSteps.RunNotes` | mcg/inference/inference.go:423-453 | with any names, every noted file belongs to a type in the output or to a noted enum, and every reference to a supplied type |
| `InferenceRun.TypeInference.Infer` | mcg/inference/inference.go:91-122 | with any names: reports a cycle and changes nothing, or leaves state and failures of the run over every builder once, each after what it needs and reports last; with distinct names, all that `RunInferred` says holds of it |
| `InferenceRun.SharedName` | mcg/inference/inference.go:189-191 | a run over an aggregator and a report of the same name: no error is raised, the report stays without a type, and the one registered message does not describe it |
| `Visibility.PublicKept` | mcg/inference/tree_shaker.go:283-293 | after pruning, the shifted positions lead to the same public imports, in order |
| `Visibility.GrantsSame` | mcg/inference/tree_shaker.go:214-232 | visibility depends on public imports alone |
| `Visibility.PrunedSame` | mcg/inference/tree_shaker.go:234-295 | a file is pruned to the same result whichever other files were pruned before |
| `Visibility.PruningPreservesVisibility` | mcg/inference/tree_shaker.go:234-295 | pruning changes no visibility between files; a file sees just what it required and saw before; every import left leads to something required |
| `Sight.GrantsJustWhen` | mcg/inference/tree_shaker.go:214-232 | importing a file makes another visible if and only if a chain of public imports leads from the one to the other |
| `Sight.InitialImports` | mcg/inference/tree_shaker.go:56-82 | a file is opened with the imports it was supplied with, public just where they were supplied as public |
| `Sight.AllRefsMentioned` | mcg/inference/tree_shaker_support.go:36-57 | the references gathered for a message are those of its fields and of the fields of the messages nested in it, however deeply |
| `Sight.CallsItem` | mcg/inference/tree_shaker.go:138-190 | what is taken for a reference is the outermost message around what it names, or the enum itself if no message is around it |
| `Sight.UsesJustWhen` | mcg/inference/tree_shaker.go:192-207 | one item uses another if and only if a field in it calls for that one |
| `Descriptors.GetRootMessage` | mcg/inference/tree_shaker_support.go:28-33 | the result is a top-level message that encloses the given one |
| `Descriptors.RootIsUnique` | mcg/inference/tree_shaker_support.go:28-33 | no other top-level message encloses it |
| `Pruning.GetMessageDeps` | mcg/inference/tree_shaker_support.go:36-57 | adds the message's own file and the files of all types that it and its nested messages use |
| `Pruning.KeepDeps` | mcg/inference/tree_shaker.go:258-281 | keeps, in order, the imports that grant visibility to something required, and records where each has gone |
| `Pruning.PruneFile` | mcg/inference/tree_shaker.go:235-294 | one file pruned against the files as they are |
| `TreeShaker.OpenOpens` | mcg/inference/tree_shaker.go:56-82 | opening a file adds it and all it imports, complete and empty, and touches no other |
| `TreeShaker.Shaker.GetOrInit` | mcg/inference/tree_shaker.go:56-82 | the map of files follows that function |
| `TreeShaker.Shaker.HarvestMessage` | mcg/inference/tree_shaker.go:138-164 | takes the root of a message; everything newly taken is reachable and has all it uses taken too |
| `TreeShaker.Shaker.HarvestEnum` | mcg/inference/tree_shaker.go:166-190 | the same for an enum, or for the message around it |
| `TreeShaker.Shaker.HarvestMessageDeps` | mcg/inference/tree_shaker.go:192-207 | takes what the fields of a message and of its nested messages refer to |
| `TreeShaker.Shaker.HarvestAll` | mcg/inference/tree_shaker.go:98-118 | what is taken is exactly what is reachable from the requested messages and enums |
| `TreeShaker.Shaker.PruneUnusedImports` | mcg/inference/tree_shaker.go:234-295 | whatever the order of files, the result is every file pruned against the files as they were |
| `Keeping.KeepNeeded` | mcg/inference/tree_shaker.go:297-316 | marks exactly the files to which a file holding a message or enum leads |
| `TreeShaker.Shaker.PruneUnusedAndWellKnown` | mcg/inference/tree_shaker.go:297-330 | what is left is exactly the needed files that are not well known, unchanged |
| `Keeping.SortedFileDescriptors` | mcg/inference/tree_shaker_support.go:60-81 | all files once, each after the files it imports; acyclic imports never fail to sort |
| `TreeShaker.Shaker.TreeShake` | mcg/inference/tree_shaker.go:94-136 | exactly what is reachable is harvested; of its files, pruned, exactly those are given out that something harvested leads to, but for well-known ones; whatever an output file imports is well known or comes before it. In terms of the imports of the schema: an output file has just those imports left from which a chain of public imports leads to a file it needs or imports publicly, with its public ones as supplied; it sees a file it needs through such chains just when it did as supplied, and sees nothing new |
| `OutputVisibility.OutputPrunedWell` | mcg/inference/tree_shaker.go:234-295 | of the imports an output file was supplied with, just those are left that make visible the file of a type its messages refer to, or a file it imports publicly; its public imports are all left, in order |
| `OutputVisibility.OutputSees` | mcg/inference/tree_shaker.go:214-330 | a file of the output sees a file it uses through the output and well-known files just when it did as supplied, and sees nothing new |
| `InferAndShake.InferTypes` | mcg/inference/inference.go:85-143 | with any names: the state is that of the run, and what is given out is what shaking gives for the types the run has referenced; a noted file is missing exactly when it is stray and nothing harvested leads to it |
| `InferAndShake.MissingJustWhen` | mcg/inference/inference.go:128-139 | a noted file is neither well known nor given out if and only if it is the file, not well known, of a message with a well-known name, and nothing harvested leads to it |
| `InferAndShake.GivesOutJustWhen` | mcg/inference/inference.go:240-254 | no run of any configuration over a resolver misses a noted file if and only if every message of the resolver whose name starts with `google.protobuf.` lies in a well-known file |
| `InferAndShake.StrayRun` | mcg/inference/inference.go:242-245 | for every resolver where that is not so: a run over one data source and one report that raises no error, imports the file, references nothing and gives nothing out |
| `Sessions.Session.ExprStash` | mcg/session/session.go:88-92 | stores the text under a reference not in use, disturbing no other |
| `Sessions.TranslateMessageBuilder` | mcg/api_helpers.go:267-275 | overwriting a clone, assignment by assignment, translates every index and leaves counts alone |
| `Sessions.TriggersWithReplacedIndices` | mcg/api_helpers.go:288-331 | each trigger with a kind appears once, in name order, its indices translated; that translation changes nothing else, `Sessions.TriggerIsShapeAndIds` and `Sessions.TriggerKeepsShape` say |
| `Sessions.TriggerIsShapeAndIds` | mcg/api_helpers.go:297-319 | two triggers are the same if and only if they are the same with zero for every index, and have the same indices |
| `Sessions.TriggerKeepsShape` | mcg/api_helpers.go:297-319 | with zero for every index a translated trigger is the one it was: same kind, same condition, same presence of an initial index, same source and parents |
| `Sessions.SourcesWithReplacedIndices` | mcg/api_helpers.go:335-356 | the same for sources |
| `Sessions.SourceIsShapeAndIds` | mcg/api_helpers.go:267-275 | two sources are the same if and only if they are the same with zero for every index, and have the same indices |
| `Sessions.SourceKeepsShape` | mcg/api_helpers.go:267-275 | translation keeps name, kind, message type, and the field names and aggregations position by position |
| `Sessions.ReportsWithReplacedIndices` | mcg/api_helpers.go:360-372 | the same for reports |
| `Sessions.CompileSession` | mcg/api_helpers.go:379-402 | succeeds just when every text compiles by itself; then every item that has a kind, and no other, is emitted once, in name order, and with zero for every index it is the item of the session; every emitted index decodes to the tree of the text stashed for that position, and no lookup misses |
| `EndToEnd.SessionWellIndexed` | mcg/api_helpers.go:379-414 | the configuration a session compiles to meets what inference asks for: operands come before the nodes that use them, and every index a type is read from is in range |
| `EndToEnd.TypeOfTree` | mcg/inference/expression_resolution.go:52-343 | over the pool of a parser, the inferred type of a field is the type of its expression's tree |
| `EndToEnd.TypeOfText` | mcg/inference/expression_resolution.go:52-343 | it is the type of the text stashed for the field, whatever other texts the session shares its pool with |
| `SessionTypes.ReportTyped` | mcg/api_helpers.go:379-414 | a report of a compiled session that gives no type and for which no failure is recorded has a message with the fields the session assigns, in order and numbered, each of the type fixed by its aggregation or else of the type of the text stashed for it |
| `SessionTypes.AggregatorTyped` | mcg/api_helpers.go:379-414 | the same for an aggregator |
| `Sessions.StrictSessionUnchanged` | mcg/expressions/parse.go:92-118 | if strict mode accepts a session, permissive mode accepts it too, with the same nodes and index map, and with no others |
| `Renames.NodeRenamed` | mcg/api_helpers.go:120-136 | since children are renamed before parents, the sequence of renames acts on each node as the table of its own level |
| `Renames.NoCanonicalPath` | mcg/api_helpers.go:156-166 | a tree renamed to legacy names has no node at a canonical path |
| `Renames.LegacyRoundTrip` | mcg/api_helpers.go:83-179 | on every canonical tree, canonical to legacy and back is the identity, and the tree between passes the v1 format check |
| `LegacyForm.LegacyIs` | mcg/api_helpers.go:83-136 | on every tree, what becomes of each node in the pass to legacy names, by its level and name; every `ON_DEMAND` at the connection type becomes `GETTER` |
| `LegacyForm.CanonicalIs` | mcg/api_helpers.go:83-154 | the same for the pass back |
| `LocalCache.RunReflectsHistory` | mcg/vs_cache/vs_cache_local.go:47-115 | after any calls the list is ordered by last set or hit, each version holds its latest value, and a positive capacity is not exceeded |
| `LocalCache.EvictsOldest` | mcg/vs_cache/vs_cache_local.go:104-115 | an insertion beyond the capacity drops exactly the version whose last use is oldest |
| `LocalCache.UnlimitedHoldsAll` | mcg/vs_cache/vs_cache_local.go:104-107 | without a limit the cache holds exactly the values set and not deleted since |
| `LocalCache.HeldJustWhen` | mcg/vs_cache/vs_cache_local.go:47-115 | for every capacity that is not negative: a version is held if and only if it has been set and not deleted since, and no insertion since it was last set has met a full cache in which it was the one used longest ago |
| `LocalCache.SetIsHeld` | mcg/vs_cache/vs_cache_local.go:60-74 | what was just set is held, in front |
| `LocalCache.RoomForAll` | mcg/vs_cache/vs_cache_local.go:104-107 | while there is room, an insertion loses nothing |
| `LocalCache.NegativeHoldsNothing` | mcg/vs_cache/vs_cache_local.go:104-115 | with a negative capacity nothing is ever held |
| `LocalCache.Cache.Get` | mcg/vs_cache/vs_cache_local.go:47-58 | a hit returns the value and moves it to the front; a miss changes nothing; map and list stay in bijection |
| `LocalCache.Cache.Set` | mcg/vs_cache/vs_cache_local.go:60-74 | updates in place or inserts and evicts, as the list model says |
| `LocalCache.Cache.Delete` | mcg/vs_cache/vs_cache_local.go:76-89 | removes the version from map and list and says whether it was there |
| `LocalCache.Cache.EvictLast` | mcg/vs_cache/vs_cache_local.go:104-115 | drops the last element and its map entry if the capacity is exceeded, and only then |

## Left out

- Character scanning: the model starts at lexemes.
- Numeric literals: a number lexeme carries the constants it resolves to, plain and negated; the choice of type and its rounding are not modelled.
- Parser.ParserShunt.PushNode: indices are unbounded; the panic at 2^32 - 1 nodes is not modelled.
- Wire encoding: the pool's index is keyed by the node itself, so deterministic encoding is taken to be injective.
- Error texts: errors are values that say which rule was broken, not messages.
- Parser.ParserShunt.HandleComma: the loops that unwind to a bracket in commas, closing parentheses and closing brackets are one shared loop in the model.
- Sessions.Session.ExprStash: references are unbounded; wrap-around of the 32-bit counter is not modelled.
- InferenceRun.TypeInference.Infer: that a builder has a type just when its fields raise no errors is proved for distinct builder names and no supplied message in the ad-hoc package; that operands come before their users and indices are in range is proved of every compiled session, and other configurations must meet it; source and report names have no dots, and type names are kept without their leading dot. A given type that is no qualified name counts as one that is not supplied. The type check of conditional triggers, and the final sorting of the dependency list, are not modelled.
- Visibility.GrantsVisibilityTo: imports are assumed acyclic; a rank of the files witnesses it. Positions of public imports are not negative.
- TreeShaker.Shaker.HarvestMessage: messages and enums are identified by full name, nested messages are accounted for through their root, and descriptor extensions and custom options are not modelled.
- Renames.LegacyRoundTrip: the tree is a value; that the passes overwrite the nodes of one tree in place is not captured. Names that no rename mentions are one class, and nodes without a renamed position are carried along unchanged.
- LocalCache.Cache: the lock around each operation is not modelled; each call is one step. The doubly linked list is a sequence of element objects.
- HTTP handlers, content negotiation, protobuf and textproto marshalling, Redis and the two-tier cache, shallow validators, UUID checks: plumbing, or single-branch facts.
