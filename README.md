# sd-visualiser core: hypergraph builder and expression-to-hypergraph conversion

This project models the core of sd-visualiser, which draws string diagrams of
programs. A program is an expression: bindings that define variables, and the
values the expression returns. The core turns that expression into a
hypergraph:

- operations and thunks become nodes;
- variables become edges, i.e. out-ports linked to the in-ports that use them.

The model covers four parts of that core.

- **`Builder`** (`builder.dfy`) models `HyperGraphBuilder` from `sd-core/src/hypergraph/builder.rs`.
  - Ports and nodes live in one arena and are named by their index.
  - A link is the index of the out-port an in-port reads from.
  - A thunk holds the list of its interior nodes. Those nodes always sit after the thunk in the arena.
  - It covers `new` and the two `fold`s (the order in which nodes reach the checking closures).
  - It covers `build`: the port checks, `build_thunk_inputs` (free-variable edges of every thunk), and `topsort_node_internals`.
- **`Tarjan`** (`tarjan.dfy`) models `strongconnect` and `tarjans`, the strongly-connected-components sort `build` uses.
  - It works over node ids.
  - The successor function (`flat_successors`) is a parameter.
- **`Fragment`** (`fragment.dfy`) models the fragment operations the converter and `clone_thunk` use, on the same arena:
  - `add_operation`, `add_thunk` and `link`;
  - `in_thunk`, which becomes a scope;
  - `Thunk::clone_thunk`, a deep copy of a built thunk into a fragment. It records which copied in-port stands for which original edge.
- **`Graph`** (`graph.dfy`) models the conversion `TryFrom<&Expr>` from `sd-core/src/graph.rs`.
  - `Environment` is a class. Its fields are the fragment, the pending `inputs` and the `outputs` map, and its methods are `process_value`, `process_thunk` and `process_expr`.
  - The recursion over values and thunks keeps the environment invariant (`Ready`).
  - Each method states what it did to the fragment: `OpProcessed`, `ThunkProcessed`, `ExprProcessed`. Those statements compose up to `TryFrom`.
  - Acceptance is defined by predicates over the syntax (`ValueOk`, `ThunkOk`, `ExprOk`): no binding of a bare variable, bound variables distinct and not yet in scope, parameters distinct, one value per thunk body. Each method succeeds exactly when its input is acceptable.
  - `TryFrom` succeeds iff the free variables are distinct, the expression is acceptable and `build`'s checks pass. The graph then has one input per free variable and one output per returned value, and every graph output is linked. A returned variable that is neither free nor bound makes `build` fail on the first such output.
- **`Language`** (`language.dfy`) and **`Spartan`** (`spartan.dfy`) model the shared syntax of `sd-core/src/language/mod.rs`:
  - `GetVar` and the `into` conversions between languages, proved to respect identity and composition;
  - the Spartan operator table (`Display`, `FromStr`, `Matchable`);
  - its variables (`Matchable`, `Display`, `Fresh`).

Two differences from the Rust code:

- `graph.rs` is written against a syntax in which a binding defines one variable and an operator's arguments are values or thunks (`Arg`, `AsVar`). The module `Graph` declares that syntax itself. The older syntax of `language/mod.rs` (several definitions per binding, thunks as values) is modelled separately in `Language`.
- The variable-definition type is related to the variable type by a function `asVar` (`AsVar::as_var`). For Spartan that function is the identity, as in the blanket `GetVar` impl.

## Model

| member | source | states |
|---|---|---|
| Builder.New | sd-core/src/hypergraph/builder.rs:196-211 | a well-formed builder with no nodes, one distinct unlinked interface out-port per input weight (carrying that weight) and `number_of_outputs` distinct unlinked interface in-ports |
| Builder.CheckInPortsInitialized | sd-core/src/hypergraph/builder.rs:245-261 | succeeds exactly when every link of the out-port points at a live in-port; otherwise fails with `UninitializedOutPort` naming that port |
| Builder.CheckOutPortInitialized | sd-core/src/hypergraph/builder.rs:263-279 | succeeds exactly when the in-port is linked to a live out-port; otherwise fails with `UninitializedInPort` naming that port |
| Builder.CheckInPorts | sd-core/src/hypergraph/builder.rs:399-404 | the loop over graph inputs succeeds iff all are live; a failure is the first port, in list order, that is not |
| Builder.CheckOutPorts | sd-core/src/hypergraph/builder.rs:406-411 | the loop over graph outputs succeeds iff all are linked; a failure is the first port, in list order, that is not |
| Builder.CheckNode | sd-core/src/hypergraph/builder.rs:413-431 | the two closures passed to the checking `fold`: a node passes iff its in-ports are linked and its out-ports live; a failure is its first failing port, in-ports before out-ports |
| Builder.FoldCheck | sd-core/src/hypergraph/builder.rs:221-239 | the checking `fold` over a node list succeeds iff every node it visits passes; a failure is the first failing port in fold order |
| Builder.CheckBelow | sd-core/src/hypergraph/builder.rs:163-182 | the thunk-level `fold`: the same for one node and everything nested inside it, interior first |
| Builder.FoldCovers | sd-core/src/hypergraph/builder.rs:163-182 | `fold` visits exactly the nodes reachable through the node lists from the given list |
| Builder.FoldInteriorFirst | sd-core/src/hypergraph/builder.rs:174-178 | every thunk is visited after all of its interior nodes |
| Builder.FoldListAppend | sd-core/src/hypergraph/builder.rs:226-237 | folding a concatenated list visits the first list's nodes, then the second's |
| Builder.ChecksOfAppend | sd-core/src/hypergraph/builder.rs:226-237 | the checks made while folding a concatenated list are those of the first list followed by those of the second |
| Builder.FailedStep | sd-core/src/hypergraph/builder.rs:226-237 | when the nodes before the `k`-th all pass, the first failure below the `k`-th node is the first failure of the whole list |
| Builder.Validate | sd-core/src/hypergraph/builder.rs:399-432 | the checking half of `build` succeeds iff interface inputs are live, interface outputs linked and every visited node passes; a failure is the first failing check in the order of the source: graph inputs, graph outputs, then the nodes in fold order |
| Builder.FirstFailureUnique | sd-core/src/hypergraph/builder.rs:399-432 | the first failing check is unique, so the error `build` reports is determined by the graph |
| Builder.FirstUnlinkedOutput | sd-core/src/hypergraph/builder.rs:406-411 | when every graph input is live, the first unlinked graph output is the error the checks report |
| Builder.UnlinkedInPortFails | sd-core/src/hypergraph/builder.rs:414-417 | a reachable node with an unlinked in-port makes the graph invalid |
| Builder.DeadLinkFails | sd-core/src/hypergraph/builder.rs:418-420 | a reachable node with an out-port linked to a dead in-port makes the graph invalid |
| Builder.NewValidIff | sd-core/src/hypergraph/builder.rs:196-211 | a fresh builder passes the checks iff it has no graph outputs |
| Builder.CollectCrossing | sd-core/src/hypergraph/builder.rs:293-310 | the `IndexSet` `build_thunk_inputs` collects: the candidate edges that cross the thunk boundary, de-duplicated in first-seen order |
| Builder.Crosses | sd-core/src/hypergraph/builder.rs:298-309 | an edge leaves the thunk iff it is produced by a node outside the interior, or, for an interface edge, iff the thunk does not bind it |
| Builder.BuildThunkInputs | sd-core/src/hypergraph/builder.rs:281-313 | stores the free-variable edges of thunk `t` and changes nothing else |
| Builder.FreeEdgesFacts | sd-core/src/hypergraph/builder.rs:288-310 | the free-variable edges are distinct, are exactly the candidate edges that leave the thunk (produced outside it, or an interface edge not bound by it), in first-seen order |
| Builder.FreeEdgesOrderFree | sd-core/src/hypergraph/builder.rs:286-310 | any order of the interior nodes (the `HashSet` iteration) gives the same set of free-variable edges |
| Builder.FreeEdgesAgree | sd-core/src/hypergraph/builder.rs:434-440 | computing a thunk's edges after its interior thunks were processed gives its specified free-variable edges |
| Builder.InputsStep | sd-core/src/hypergraph/builder.rs:436-438 | processing one more thunk extends the set of thunks whose free-variable edges are set |
| Builder.FoldInputs | sd-core/src/hypergraph/builder.rs:434-440 | the second `fold` sets the free-variable edges of every thunk it visits, to their specified value |
| Builder.InputsNode | sd-core/src/hypergraph/builder.rs:163-182 | the same for one node and everything inside it |
| Builder.TopsortNodeInternals | sd-core/src/hypergraph/builder.rs:373-397 | the sorted list holds every node once; components are contiguous, emitted after the components they reach, and keep their original order inside |
| Builder.SortStep | sd-core/src/hypergraph/builder.rs:446-449 | sorting one more thunk's interior list extends the set of sorted thunks |
| Builder.FoldTopsort | sd-core/src/hypergraph/builder.rs:444-451 | the third `fold` sorts the interior list of every thunk it visits |
| Builder.TopsortNode | sd-core/src/hypergraph/builder.rs:163-182 | the same for one node and everything inside it |
| Builder.Build | sd-core/src/hypergraph/builder.rs:241-454 | succeeds iff the checks pass; a failure is the first failing check, as for `Validate`; on success the interface and ports are unchanged, the top list is sorted, every reachable thunk gets its free-variable edges and a sorted interior list, and nothing else changes |
| Builder.SortedTopReach | sd-core/src/hypergraph/builder.rs:442 | sorting the top list does not change which nodes the fold reaches |
| Tarjan.StrongConnect | sd-core/src/hypergraph/builder.rs:315-343 | one depth-first search from `node`: visits everything reachable, keeps the stack, low-link and partition invariants, and emits only whole components in reverse topological order |
| Tarjan.SearchAll | sd-core/src/hypergraph/builder.rs:357-361 | the loop of `tarjans` visits every node of the list and partitions them into emitted components |
| Tarjan.NoReachBack | sd-core/src/hypergraph/builder.rs:339-342 | no node of an earlier component reaches a node of a later one |
| Tarjan.OutputCovers | sd-core/src/hypergraph/builder.rs:357-363 | the emitted components hold exactly the nodes of the list |
| Tarjan.SortByOrder | sd-core/src/hypergraph/builder.rs:366 | `sort_by_key` on the original position: the same nodes, in the order of the original list |
| Tarjan.CollectAll | sd-core/src/hypergraph/builder.rs:363-369 | the `flat_map` over the sorted components yields each node once, components contiguous and ordered |
| Tarjan.Tarjans | sd-core/src/hypergraph/builder.rs:345-370 | a permutation of the list; strongly connected components are contiguous, come after every component they reach, and keep the list's order inside |
| Fragment.AddOperation | sd-core/src/graph.rs:141-143 | a new operation node in the scope's node list, at the next arena slot, with fresh unlinked in-ports and out-ports of the given weights, and nothing existing changed |
| Fragment.AddThunk | sd-core/src/graph.rs:192-195 | a new empty thunk node with fresh bound out-ports and output out-ports of the given weights, fresh interior graph outputs, and nothing existing changed |
| Fragment.Link | sd-core/src/graph.rs:169 | links an unlinked in-port to an out-port and records the in-port among the out-port's links; every other in-port and out-port, and every node, is unchanged |
| Fragment.NewOperationUnlinked | sd-core/src/hypergraph/builder.rs:414-417 | a new operation with inputs fails the check until its first in-port is linked |
| Fragment.LinkKeepsLive | sd-core/src/hypergraph/builder.rs:252-260 | linking keeps every live out-port live |
| Fragment.ExtendZipFacts | sd-core/src/hypergraph/builder.rs:472-476 | `HashMap::extend` over a zip keeps the old entries and maps each new key to its partner |
| Fragment.CloneNode | sd-core/src/hypergraph/builder.rs:478-497 | one interior node is copied into the scope as the next node: an operation with the same arity, output weights and weight, or a thunk cloned recursively; each copied in-port is mapped to the original edge feeding it |
| Fragment.FillingStep | sd-core/src/hypergraph/builder.rs:478-498 | copying the next interior node extends the copy of the thunk's interior by one node |
| Fragment.FillThunk | sd-core/src/hypergraph/builder.rs:475-499 | the body of `in_thunk`: every interior node of the source thunk is copied, in order, into the new thunk |
| Fragment.ClonedAssembled | sd-core/src/hypergraph/builder.rs:470-499 | the new thunk with its filled interior is a copy of the source thunk at every depth |
| Fragment.CloneThunk | sd-core/src/hypergraph/builder.rs:457-500 | the fragment gains one thunk that copies the source thunk at every depth (kinds, weights, arities, bound weights, interior order), with each copied in-port mapped to the edge feeding its original |
| Language.GetVar | sd-core/src/language/mod.rs:22-30 | a variable is its own variable |
| Language.ExprInto | sd-core/src/language/mod.rs:107-120 | converting keeps the number of bindings and values |
| Language.BindInto | sd-core/src/language/mod.rs:122-135 | converting keeps the number of definitions |
| Language.ValueInto | sd-core/src/language/mod.rs:137-154 | converting keeps the constructor and an operator's arity |
| Language.ThunkInto | sd-core/src/language/mod.rs:156-170 | converting keeps the number of parameters |
| Language.ExprIntoIdentity | sd-core/src/language/mod.rs:107-120 | converting with identity label maps returns the expression unchanged |
| Language.BindIntoIdentity | sd-core/src/language/mod.rs:122-135 | the same for a binding |
| Language.ValueIntoIdentity | sd-core/src/language/mod.rs:137-154 | the same for a value |
| Language.ThunkIntoIdentity | sd-core/src/language/mod.rs:156-170 | the same for a thunk |
| Language.ExprIntoCompose | sd-core/src/language/mod.rs:107-120 | converting twice equals converting once with the composed label maps |
| Language.BindIntoCompose | sd-core/src/language/mod.rs:122-135 | the same for a binding |
| Language.ValueIntoCompose | sd-core/src/language/mod.rs:137-154 | the same for a value |
| Language.ThunkIntoCompose | sd-core/src/language/mod.rs:156-170 | the same for a thunk |
| Spartan.NatToString | sd-core/src/language/spartan.rs:92 | `usize::to_string`: a non-empty string of decimal digits |
| Spartan.Display | sd-core/src/language/spartan.rs:66-95 | every operator prints as non-empty text (distinctness is `DisplayInjective`) |
| Spartan.DisplayInjective | sd-core/src/language/spartan.rs:66-95 | different operators print differently |
| Spartan.ParseUsize | sd-core/src/language/spartan.rs:126 | `str::parse::<usize>` succeeds exactly on an optional `+` followed by digits whose value is below 2^64, and returns that value |
| Spartan.KeywordOf | sd-core/src/language/spartan.rs:101-123 | a keyword arm returns the operator whose keyword is exactly the input |
| Spartan.FromStr | sd-core/src/language/spartan.rs:97-129 | a parsed keyword operator came from its keyword, a boolean from `true`/`false`, a number from its `usize` literal; every string that parses as a `usize` gives that number |
| Spartan.KeywordOfKeyword | sd-core/src/language/spartan.rs:101-123 | each keyword operator's keyword is read back as that operator |
| Spartan.KeywordRoundTrip | sd-core/src/language/spartan.rs:101-123 | `from_str` of a keyword operator's keyword returns that operator |
| Spartan.KeywordsAreNotDigits | sd-core/src/language/spartan.rs:101-126 | no keyword starts with a digit, so digit strings reach the number arm |
| Spartan.DecimalRoundTrip | sd-core/src/language/spartan.rs:92 | reading back the decimal digits of a number gives the number |
| Spartan.NatToStringInjective | sd-core/src/language/spartan.rs:92 | different numbers print differently |
| Spartan.ParsePrintedNumber | sd-core/src/language/spartan.rs:126 | parsing a printed number gives it back exactly when it fits in a `usize` |
| Spartan.FromStrDigits | sd-core/src/language/spartan.rs:126 | `from_str` of a digit string is the `usize` parse of it |
| Spartan.NumeralsAreNotKeywords | sd-core/src/language/spartan.rs:101-126 | a string that parses as a `usize` is no keyword and no boolean, so it reaches the number arm |
| Spartan.FromStrPrinted | sd-core/src/language/spartan.rs:92-126 | reading back a printed `usize` gives that number |
| Spartan.IsMatch | sd-core/src/language/spartan.rs:131-160 | a matching query reads back as the operator; for every operator but a number, matching and reading back agree in both directions |
| Spartan.VariableDisplay | sd-core/src/language/spartan.rs:196-200 | a variable displays as its name |
| Spartan.VariableIsMatch | sd-core/src/language/spartan.rs:190-194 | a variable matches exactly the text it displays as |
| Spartan.NumberParsingIsLiberal | sd-core/src/language/spartan.rs:126-157 | for numbers the parser accepts `+7` and `007` as 7, which `is_match` rejects |
| Spartan.Fresh | sd-core/src/language/spartan.rs:202-206 | a fresh variable is named `?` followed by its number as `to_string` prints it |
| Spartan.FreshInjective | sd-core/src/language/spartan.rs:202-206 | different numbers give different fresh variables |
| Graph.ToVar | sd-core/src/graph.rs:55-61 | operation and thunk edges carry no variable; a free variable edge carries its variable, a bound one its definition's variable |
| Graph.OutWeight | sd-core/src/graph.rs:135-139 | an operation bound to a variable gets an out-port weighted by that variable, one fed into an in-port gets `Op` |
| Graph.Declare | sd-core/src/graph.rs:286-292 | inserting the zipped variables succeeds iff none is already present or repeated; on success each maps to its out-port and old entries are kept; a failure is `Shadowed` of the first offending variable |
| Graph.DeclaredFresh | sd-core/src/graph.rs:286-292 | declaring variables in an empty scope succeeds iff they are distinct, and otherwise fails with `Shadowed` of the first repeated one |
| Graph.DeclareParams | sd-core/src/graph.rs:201-209 | declaring a thunk's parameters at its bound out-ports succeeds iff they are distinct, else fails with `Shadowed` of the first repeated one; the environment then maps exactly the parameters, the `k`-th to the `k`-th bound out-port |
| Graph.LinkUp | sd-core/src/graph.rs:244-254 | the `retain`: every pending in-port whose variable is in scope is linked to that variable's out-port; exactly the others remain pending, in order; no other open port is touched |
| Graph.Environment.constructor | sd-core/src/graph.rs:105-111 | a new environment owns the given fragment and has no pending inputs or variables |
| Graph.StartOp | sd-core/src/graph.rs:135-143 | adds the operation node: its in-ports are fresh, open and not pending, its out-port carries the bound variable or `Op`, and the environment stays consistent |
| Graph.FinishOp | sd-core/src/graph.rs:155-170 | the operation's out-port is bound to the variable (which was not in scope) or linked into the target in-port |
| Graph.ArgStep | sd-core/src/graph.rs:144-153 | one more argument, from the last to the first, is wired to its in-port; the earlier arguments' in-ports stay open |
| Graph.Environment.ProcessArg | sd-core/src/graph.rs:145-152 | a value argument is processed into its in-port, a thunk argument through `process_thunk`; either way the in-port is wired; it succeeds iff the argument is acceptable (`ArgOk`) |
| Graph.Environment.ProcessArgs | sd-core/src/graph.rs:144-153 | succeeds iff every argument is acceptable; then each argument wired its own in-port, and the recorded states show the arguments processed one at a time from the last to the first, each step touching only its in-port and ports it created; the variables are unchanged |
| Graph.Environment.ArgTurn | sd-core/src/graph.rs:144-153 | one turn of the argument loop: the `k`-th argument succeeds iff it is acceptable, and then extends the record of processed arguments by one step |
| Graph.Environment.ProcessOp | sd-core/src/graph.rs:134-173 | an operation value succeeds iff its arguments are acceptable and, when bound, its variable is not in scope; it adds one node whose arguments are wired and whose out-port is bound or linked; binding a variable already in scope fails with `Shadowed` of it |
| Graph.Environment.ProcessValue | sd-core/src/graph.rs:121-175 | a variable bound to a variable fails with `Aliased`; a variable into an in-port becomes a pending input; an operation is processed as above; it succeeds exactly in the acceptable cases (`ValueOk`, and a bound variable not in scope); the environment stays consistent and only the target in-port or fresh ports are used |
| Graph.StartThunk | sd-core/src/graph.rs:192-195 | adds the thunk node with bound weights from the parameters and one output weighted by the address; its interior graph output is fresh and open |
| Graph.RunBody | sd-core/src/graph.rs:197-213 | the closure of `in_thunk`: a fresh environment declares the parameters (a repeated one fails with `Shadowed` of the first) and processes the body inside the thunk; it succeeds iff the parameters are distinct and the body is acceptable; it hands back the body's fragment, its remaining pending entries and the record of the run (`BodyRan`) |
| Graph.ThunkLinked | sd-core/src/graph.rs:215-219 | linking the thunk's output into the target in-port keeps the thunk and every other open in-port |
| Graph.FinishThunk | sd-core/src/graph.rs:211-219 | the body's unresolved inputs are appended to the outer ones (`ins == in0 + inb`) and the thunk's output is linked into the target in-port |
| Graph.ThunkStep | sd-core/src/graph.rs:192-219 | a thunk becomes one thunk node whose body was run in its scope (`BodyRan`) and whose output is linked into the target in-port; the new pending inputs are exactly the body's unresolved ones appended to the old, and none names a parameter; it succeeds iff the parameters are distinct and the body is acceptable |
| Graph.Environment.ProcessThunk | sd-core/src/graph.rs:184-222 | a body with other than one value fails with `ThunkOutputError` and changes nothing; repeated parameters fail with `Shadowed` of the first; it succeeds iff the thunk is acceptable (`ThunkOk`), and then as `ThunkStep` |
| Graph.ValuesStep | sd-core/src/graph.rs:234-237 | one more returned value feeds its graph output |
| Graph.Environment.ProcessValues | sd-core/src/graph.rs:234-237 | each returned value, zipped with the scope's graph outputs, feeds its graph output; succeeds iff each of those values is acceptable; the variables are unchanged |
| Graph.Environment.ValueTurn | sd-core/src/graph.rs:234-237 | one turn of the value loop: the `k`-th value succeeds iff it is acceptable, and then feeds its graph output |
| Graph.BindStep | sd-core/src/graph.rs:239-241 | one more binding, from the last to the first, adds its variable to the scope |
| Graph.FreshStep | sd-core/src/graph.rs:239-241 | once the later bindings are processed, the `k`-th binding's variable is fresh (not in scope before, and defined by no later binding) iff it is not in scope |
| Graph.Environment.ProcessBinds | sd-core/src/graph.rs:239-241 | succeeds iff every binding binds an acceptable operation and the bindings' variables are distinct and were not in scope; then the variables are the old ones (unchanged) plus those the bindings define, and the recorded states show the bindings processed one at a time from the last to the first |
| Graph.Environment.BindTurn | sd-core/src/graph.rs:239-241 | one turn of the binding loop: the `k`-th binding succeeds iff its value is an acceptable operation and its variable is fresh, and then extends the record of processed bindings by one step |
| Graph.ExprKept | sd-core/src/graph.rs:233-257 | processing an expression leaves open every in-port outside its graph outputs that nobody waited at; every remaining pending input is old or waits at a graph output or a new port |
| Graph.ExprResolved | sd-core/src/graph.rs:244-254 | after the `retain`, each graph output fed by a variable in scope is linked to it, one fed by a variable out of scope stays open, and one fed by an operation is linked |
| Graph.FinishExpr | sd-core/src/graph.rs:244-254 | the `retain` ends `process_expr`: the pending entries that name a variable in scope are linked to it and the others are kept in order, with everything `ExprProcessed` states |
| Graph.Environment.ProcessExpr | sd-core/src/graph.rs:233-257 | processing an expression succeeds iff its zipped values and its bindings are acceptable (`ExprOk`); then the environment stays consistent, defines exactly the bindings' variables, links every pending in-port whose variable is in scope, keeps the others pending in order, and resolves each graph output |
| Graph.Walk | sd-core/src/graph.rs:268-293 | a fresh builder gets one graph input per free variable and one output per value; it succeeds iff the free variables are distinct and the expression is acceptable in their scope; a repeated free variable fails with `Shadowed` of the first; the graph outputs are then resolved as `Walked` states |
| Graph.WalkBody | sd-core/src/graph.rs:286-293 | processing the expression at the top level: succeeds iff it is acceptable, keeps the interface and the liveness of the graph inputs, and leaves the graph outputs resolved |
| Graph.WalkedFrom | sd-core/src/graph.rs:286-293 | at the top level, a returned free variable is wired straight from its graph input, and a returned variable leaves its output open iff it is neither free nor bound |
| Graph.TryFrom | sd-core/src/graph.rs:268-299 | walk then `build`: succeeds iff the free variables are distinct, the expression is acceptable and the walked graph passes the checks; errors are walk errors or the first failing check; a returned variable that is neither free nor bound fails with `UninitializedInPort` of the first such output; on success every graph output is linked |

## Left out

- `fragment.rs` is not part of this model. The fragment operations (`add_operation`, `add_thunk`, `in_thunk`, `link`) are modelled from how `builder.rs` and `graph.rs` use them. `in_thunk` is a scope index into the arena, not a closure over a borrowed builder.
- Shared ownership (`Arc`, `Weak`, `ByThinAddress`, `RwLock`, `OnceCell`) is replaced by arena indices and value updates. Lock failures and `unwrap` panics are not modelled.
- A dead `Weak` link is modelled as an index outside the arena.
- `tracing` and `debug!` logging is left out.
- `FreeVars` (the free-variable analysis) is not part of this model. `TryFrom` takes its result, the list `free`, as a parameter.
- `Node::flat_successors` is defined outside `builder.rs`. It is a parameter `succ`, and `build` restricts it to the list being sorted.
- `Node::inputs` of a thunk is taken to be the thunk's free-variable edges.
- `build_thunk_inputs` iterates a `HashSet`, whose order is unspecified. The model iterates the interior list in order. `FreeEdgesOrderFree` proves that the set of edges collected does not depend on that order; the order of the stored `IndexSet` does.
- `Builder.Build` checks the graph but does not model the `assert!` that interface ports belong to no node. That fact is an invariant of the builder (`Wf`).
- `HyperGraphBuildError::StrongCycle` is never raised by `build` and is not modelled.
- `OutputLinkError` and `ThunkLinkError` from `link` are not modelled. `Link` requires an unlinked in-port in scope, and the converter is proved never to link an in-port twice.
- `ConvertError::VariableError` and `ConvertError::NoOutputError` are declared but never raised on the modelled paths: an operation always has exactly one out-port. They appear in the datatype only.
- Graph.Environment.ProcessValue: on an error, the contracts state only the kind of error, not the partly built fragment the source leaves behind. The same holds for `ProcessOp`, `ProcessArgs`, `ProcessArg`, `ProcessThunk`, `ProcessExpr`, `ProcessValues`, `ProcessBinds`, `Walk` and `TryFrom`.
- Graph.Environment.ProcessArgs: when several arguments are unacceptable, the contract says the call fails, not which argument's error is returned (the last one, as the loop runs backwards). The same holds for `ProcessBinds` (the last failing binding) and `ProcessValues` (the first failing value).
- Graph.Environment.ProcessThunk: the walk runs on values. `ThunkStep` and `RunBody` take the fragment and return the new one, and the nested environment's fragment and inputs are handed back by value, as `in_thunk` hands back `thunk_env.fragment`. The outer class fields are assigned once with the result.
- Graph.TryFrom: the contract does not state the full shape of the built graph node by node; it states the interface, the linking of every graph output and the resolution of the returned values.
- Fragment.CloneThunk: the out-port map (`out_port_map`) is only shown to keep its old keys. The exact correspondence it records between original and copied out-ports is not stated.
- Fragment.CloneThunk: the source thunk must be a built graph (`Frozen`): every in-port linked, one interior graph output per output. This is what `clone_thunk` receives in the source.
- Spartan.Display: only non-emptiness and injectivity are stated. The symbolic text is not parsed back, since `FromStr` reads the keyword form, not the symbols.
- The MLIR importer, the `visitor` module, the pest grammars, layout, rendering and the GUI are outside the core.
