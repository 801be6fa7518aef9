# OpenMP region graph builder (gcc-ompinfo), modelled in Dafny

gcc-ompinfo is a GCC plugin. It draws the OpenMP constructs of each
procedure as a graphviz graph. Before OpenMP expansion it walks the dominator
tree of every procedure in pre-order. It looks only at the last statement of
each basic block. When that statement is an OpenMP marker, the marker gets the
next global construct id (`omp_constructs_cnt`, starting at 1 and never
reset). The marker's class then decides what happens:

- **push** (task, critical, single, parallel, for) opens a nested subgraph and
  puts the construct's node into it;
- **pop** (OpenMP return) looks up the parent of the current subgraph in the
  plugin's own registry, since graphviz offers no parent query, and puts the
  return node there;
- **flat** (master, ordered, section, sections, sections switch, atomic load,
  atomic store, continue) puts the node into the current subgraph;
- any other OpenMP code aborts the run.

The first marker on a path with no anchor node first creates the procedure's
subgraph `cluster_<fn>` under the root graph and its entry node `<fn>()`.
Every construct node gets one edge from the anchor node in force. Each
dominator child is visited with the same context `(id, anchor, subgraph)`,
passed by value. An OMP-for node also carries a record label
`{ omp_for.<id> | for (i=0; i\<N; i = i + 1) | ...}`, with one clause per
collapsed dimension.

The model has one module per concern:

- `wrappers.dfy`: `Option` and `Result`.
- `names.dfy`: `%d` rendering and the name builders for subgraphs and nodes.
- `label.dfy`: the OMP-for record label.
- `markers.dfy`: the markers, their classes, and GCC's code names.
- `graph.dfy`: the accumulated state and its invariant. Graph handles are fresh
  numbers, and the registry is a map from subgraph to parent.
- `builder.dfy`: the dispatch, the recursive walk, and the driver over the
  procedures of a unit.
- `invariants.dfy`: the walk keeps the invariant.
- `regions.dfy`: what each class of marker does.
- `nesting.dfy`: the push/pop discipline along paths and over whole trees.
- `numbering.dfy`: ids follow the visit order, and region subgraph names are unique.
- `scenarios.dfy`: one run worked out completely.
- `pipes.dfy`: the descriptors that the label's pipe takes and leaves open.

Fatal errors (`assert`, `gcc_unreachable`) become `Err` results that end the
whole run. Nodes and subgraphs store what they were created for: a procedure,
or a marker with its id. Their graphviz names are computed from that by
`Graph.NodeNameOf` and `Graph.SubgraphNameOf`.

A few details of the code that the model keeps:

- the label closes with `}` and no space before it (gcc-ompinfo.c:206-208);
- the label begins with the node name `omp_for.<id>` (gcc-ompinfo.c:169);
- each clause reads `idx=init; idx op final; idx = incr` (gcc-ompinfo.c:171-205);
- the registry is created once per compilation unit, at plugin start (gcc-ompinfo.c:451), and deleted at plugin finish (gcc-ompinfo.c:401); each procedure's pass (gcc-ompinfo.c:326-334) walks it without creating it again.

## Model

| member | source | states |
|---|---|---|
| Names.NatToString | gcc-ompinfo.c:119 | the `%d` rendering of an id is a non-empty string of decimal digits with no leading zero |
| Names.ParseNatToString | gcc-ompinfo.c:119 | reading the rendered digits back yields the id: the rendering can be inverted |
| Names.NatToStringInjective | gcc-ompinfo.c:100 | distinct ids are rendered as distinct strings |
| Names.NatToStringLength | gcc-ompinfo.c:225-227 | ids below 10^k take at most k digits |
| Names.NatToStringLengthAtLeast | gcc-ompinfo.c:225-227 | ids of at least 10^(k-1) take at least k digits |
| Names.Strip | gcc-ompinfo.c:94-100 | skipping the 7-character "gimple_" prefix leaves the rest of the code name, and prefix plus rest is the code name |
| Names.EntryNodeName | gcc-ompinfo.c:82 | the entry node name `<fn>()` ends with ')' |
| Names.ForNodeNameAsWritten | gcc-ompinfo.c:225-227 | the OMP-for name as written fits the 16-byte buffer: at most 15 characters |
| Names.NodeNameInjective | gcc-ompinfo.c:114-119 | a node name `<code>.<id>` determines the stripped code name and the id |
| Names.SubgraphNameInjective | gcc-ompinfo.c:94-100 | a subgraph name `cluster_<code>.<id>` determines the stripped code name and the id |
| Names.NodeNameEndsWithDigit | gcc-ompinfo.c:119 | a construct node name ends with a digit |
| Names.EntryNameIsNotNodeName | gcc-ompinfo.c:82 | no entry node name equals a construct node name |
| Names.FunctionSubgraphNameInjective | gcc-ompinfo.c:64 | two procedures get the same subgraph name `cluster_<fn>` exactly when their names are equal |
| Names.FunctionSubgraphNameIsNotRegionName | gcc-ompinfo.c:64 | a procedure subgraph name never equals a region subgraph name `cluster_<code>.<id>` when the procedure name has no dot |
| Names.FunctionSubgraphNameMayClash | gcc-ompinfo.c:64 | a procedure named "omp_parallel.1" gets the subgraph name of the first parallel region |
| Names.ForNodeNameInjective | gcc-ompinfo.c:227 | the untruncated OMP-for name determines the id |
| Names.ForNodeNameAsWrittenAgrees | gcc-ompinfo.c:225-227 | below 10^7 the buffer holds the whole OMP-for name |
| Names.ForNodeNameAsWrittenCollides | gcc-ompinfo.c:225-227 | as written, ids 1000000 and 10000000 get the same OMP-for name, though their full names differ |
| Names.ForNodeNameAsWrittenTruncates | gcc-ompinfo.c:225-227 | from 10^7 on, the OMP-for name as written is cut to 15 characters and differs from the full name |
| Label.CondText | gcc-ompinfo.c:179-199 | an operator text exists exactly for <, >, <=, >=; it is the operator with a backslash before its angle bracket, so `\<` for <, and its length is the reference length |
| Label.ClauseText | gcc-ompinfo.c:171-206 | a clause opens with " \| for (" and closes with ')'; its length is 17 characters of punctuation plus three index dumps, the other dumps and the operator |
| Label.ClausesSingle | gcc-ompinfo.c:171-206 | the clause text of one dimension is its clause with the escaped operator |
| Label.ClausesConcat | gcc-ompinfo.c:170-207 | the clause text of consecutive dimensions is the concatenation of their clause texts, in index order |
| Label.EscapeEscaped | gcc-ompinfo.c:181-195 | escaping puts a backslash before every angle bracket |
| Label.Clauses | gcc-ompinfo.c:170-207 | the clauses succeed exactly when every operator is supported; their length is the reference length; failures are unsupported operators |
| Label.MkForLabel | gcc-ompinfo.c:169-216 | the label succeeds exactly when every operator is supported and length + 1 < 1023; the error names the cause; a label is "{ ", the node name, the clause text of all dimensions, and '}' |
| Label.ClauseHasOneBar | gcc-ompinfo.c:171-206 | one clause holds exactly one field separator when the dumps hold none |
| Label.ClausesBars | gcc-ompinfo.c:170-207 | the clauses hold one field separator per dimension |
| Label.LabelFieldCount | gcc-ompinfo.c:169-208 | the label is a record with one field for the name and one per collapsed dimension |
| Label.CondTextEscaped | gcc-ompinfo.c:181-195 | each operator text escapes its angle bracket |
| Label.ClauseEscaped | gcc-ompinfo.c:171-206 | a clause escapes every angle bracket when the dumps have none |
| Label.ClausesEscaped | gcc-ompinfo.c:170-207 | all clauses together escape every angle bracket |
| Label.LabelEscaped | gcc-ompinfo.c:169-208 | every angle bracket of the label is preceded by a backslash |
| Label.TwoDimensionLabel | gcc-ompinfo.c:169-208 | two dimensions `i=0; i<N; i=i+1`, `j=0; j<M; j=j+1` give exactly two clauses in order, each with the escaped `<` |
| Label.TwoDimensionClauses | gcc-ompinfo.c:170-207 | the two clauses of that example, in index order |
| Markers.RecognisedNamesLongEnough | gcc-ompinfo.c:96 | every code name in the dispatch table is longer than "gimple_", so the name builders' length assertion never fires |
| Markers.ForNodeNameIsNodeName | gcc-ompinfo.c:119 | the OMP-for node name follows the general node naming scheme |
| Markers.StrippedNamesDistinct | gcc-ompinfo.c:264 | two recognised markers with the same stripped code name are the same marker, except that OMP-for markers with different dimensions share one |
| Graph.Initial | gcc-ompinfo.c:27 | the run starts with construct counter 1, in a state that satisfies the invariant |
| Graph.NewSubgraphKeeps | gcc-ompinfo.c:37-46 | a new subgraph gets a handle that no subgraph, node or registry entry uses; the registry gains exactly one entry, from it to its parent, and loses none; the invariant is kept |
| Graph.NewEntryKeeps | gcc-ompinfo.c:75-87 | an entry node gets an unused handle and no edge; the invariant is kept |
| Graph.NewConstructKeeps | gcc-ompinfo.c:110-127 | a construct node gets an unused handle and exactly one incoming edge, from the anchor; its id becomes used; the invariant is kept |
| Graph.ParentQuery | gcc-ompinfo.c:29-32 | the registry lookup succeeds exactly for created subgraphs and returns the parent they were created under; the root graph has no registered parent |
| Graph.ConstructNameScheme | gcc-ompinfo.c:110-127 | every construct node, the OMP-for node included, is named `<code without gimple_>.<id>` |
| Graph.RegionSubgraphName | gcc-ompinfo.c:89-108 | a region's subgraph is named "cluster_" followed by the name of the node that opens it |
| Graph.ConstructNamesUnique | gcc-ompinfo.c:110-127 | in a valid state two different nodes never share a name when one of them is a construct node |
| Invariants.EnterFunctionKeeps | gcc-ompinfo.c:258-261 | entering a procedure from a well-formed context never fails, keeps the invariant and takes no id |
| Invariants.DispatchKeeps | gcc-ompinfo.c:263-311 | a marker takes exactly one id and every class keeps the invariant; no failure is a procedure subgraph under a non-root parent |
| Invariants.PushKeeps | gcc-ompinfo.c:271-283 | a push keeps the invariant and yields a well-formed context |
| Invariants.PopKeeps | gcc-ompinfo.c:286-293 | a pop keeps the invariant and yields a well-formed context |
| Invariants.PlaceKeeps | gcc-ompinfo.c:110-127 | placing a construct node keeps the invariant and marks its id used |
| Invariants.BumpKeeps | gcc-ompinfo.c:265 | taking the next id changes nothing else |
| Invariants.StepKeeps | gcc-ompinfo.c:253-312 | one block keeps the invariant and takes one id exactly when its last statement is a marker |
| Invariants.MarkerStepKeeps | gcc-ompinfo.c:263-311 | dispatching after entering keeps the invariant with one id taken |
| Invariants.VisitKeeps | gcc-ompinfo.c:242-320 | visiting a tree keeps the invariant, removes nothing, and takes exactly one id per marker in the tree |
| Invariants.VisitKidsKeeps | gcc-ompinfo.c:314-319 | visiting the dominator children in order keeps the invariant and takes one id per marker |
| Invariants.RunUnitKeeps | gcc-ompinfo.c:326-334 | the procedures of a unit share the counter: it ends at its start plus the number of markers |
| Invariants.UnitIds | gcc-ompinfo.c:27 | over a run the construct ids are exactly 1..N for N markers, each on one node; every construct node has one incoming edge, from an entry node or from a node with a smaller id, so ids increase along every path |
| Numbering.NewIdsFresh | gcc-ompinfo.c:265 | between two valid states of a run, every construct node added has an id handed out in between |
| Numbering.VisitIds | gcc-ompinfo.c:242-320 | visiting a tree numbers its constructs with the next ids, one per marker in the tree |
| Numbering.KidsIdsInOrder | gcc-ompinfo.c:314-319 | dominator siblings are numbered in sibling order: the first child's constructs take the ids right after the counter, and every construct of the later children gets a larger id |
| Numbering.AnchoredStepRegions | gcc-ompinfo.c:263-311 | with an anchor, only a push opens a region subgraph, with a pushing marker and the id being handed out |
| Numbering.StepRegions | gcc-ompinfo.c:253-312 | one block keeps every region subgraph opened by a pushing marker with an id already handed out, and no two sharing an id |
| Numbering.VisitRegions | gcc-ompinfo.c:242-320 | a tree keeps that property of the region subgraphs |
| Numbering.RunUnitRegions | gcc-ompinfo.c:326-334 | the procedures of a unit keep it too |
| Numbering.RegionNamesUnique | gcc-ompinfo.c:89-108 | region subgraphs with distinct ids get distinct graphviz names `cluster_<code>.<id>` |
| Numbering.UnitRegionNamesUnique | gcc-ompinfo.c:89-108 | over a whole unit, every region subgraph is opened by a pushing marker and no two region subgraphs share a name, so graphviz never merges two regions |
| Regions.PushStep | gcc-ompinfo.c:271-283 | a push opens exactly one new subgraph inside the current one, registered with it as parent, and one node inside it with one edge from the anchor, an OMP-for node carrying its label; both become the context; it fails exactly when the OMP-for label fails, with that label error |
| Regions.PopStep | gcc-ompinfo.c:286-293 | a pop fails exactly when the current subgraph is not registered; otherwise the registered parent becomes the container, the return node is placed there and becomes the anchor, and subgraphs and registry are unchanged |
| Regions.FlatStep | gcc-ompinfo.c:296-305 | a flat marker never fails; it creates one node in the unchanged current subgraph and makes it the anchor; subgraphs and registry are unchanged |
| Regions.UnknownStep | gcc-ompinfo.c:307-311 | any other OpenMP code aborts the run |
| Regions.FirstConstructStep | gcc-ompinfo.c:258-261 | with no anchor, the procedure subgraph is created under the root and registered with the root as parent; its entry node is created in it; the marker is then handled with these as context |
| Regions.NoMarkersNoChange | gcc-ompinfo.c:245-253 | a tree with no marker leaves the state exactly as it was, whatever the context |
| Regions.NoMarkersNoChangeKids | gcc-ompinfo.c:314-319 | children with no marker leave the state exactly as it was |
| Builder.EnterFunction | gcc-ompinfo.c:258-261 | with an anchor the context is kept as it is; with none, the procedure subgraph is registered under the root graph and no id is taken; it fails exactly when there is no anchor and the container is not the root graph |
| Builder.Dispatch | gcc-ompinfo.c:263-311 | an unknown code fails with that error and nothing else does; a flat marker never fails; a registry miss comes only from a pop whose container is unregistered; a label error only from an OMP-for; on success a node with a fresh handle (at or above the next unused one) is created in the new container as `Construct(m, id)`, carries a record label exactly for an OMP-for, becomes the anchor, and has an edge from the old anchor |
| Builder.Step | gcc-ompinfo.c:253-265 | a block without a marker changes nothing; a marker takes exactly one id |
| Builder.Visit | gcc-ompinfo.c:242-320 | a tree takes one id per marker it holds; a tree without markers cannot fail |
| Builder.VisitKids | gcc-ompinfo.c:314-319 | the dominator children take one id per marker they hold; children without markers cannot fail |
| Builder.RunFunction | gcc-ompinfo.c:326-334 | a procedure takes one id per marker of its dominator tree, starting from no anchor in the root graph |
| Builder.RunUnit | gcc-ompinfo.c:326-334 | the procedures of a unit take one id per marker in all of them; a unit without markers cannot fail |
| Nesting.ChainVisit | gcc-ompinfo.c:314-319 | visiting a single-path tree is running its markers in order |
| Nesting.ValidBelow | gcc-ompinfo.c:37-46 | in a valid state every registered subgraph has a handle below the next fresh one |
| Nesting.AncestorStays | gcc-ompinfo.c:44 | registry entries are never overwritten, so an ancestor found by following parents stays the same |
| Nesting.ReachStays | gcc-ompinfo.c:44 | a context's depth below a subgraph stays as the registry grows |
| Nesting.DispatchReach | gcc-ompinfo.c:266-311 | a push goes one level deeper, a pop one level up, a flat marker stays; a pop that the depth allows never misses |
| Nesting.EnterReach | gcc-ompinfo.c:258-261 | entering a procedure never fails and keeps the depth; the procedure subgraph is one level below the root graph |
| Nesting.StepReach | gcc-ompinfo.c:253-312 | one block changes the depth by the class of its marker and fails only on an unknown code or a bad label |
| Nesting.RunRestores | gcc-ompinfo.c:271-293 | starting k levels below a subgraph, a run that never closes more than is open ends k + net levels below it and never misses a lookup |
| Nesting.BalancedRunRestores | gcc-ompinfo.c:271-293 | from any anchored context, a balanced marker sequence returns to the subgraph it started in |
| Nesting.NestedPushPop | gcc-ompinfo.c:271-293 | from any anchored context, for `push A; push B; pop; pop`, the first pop returns to A's subgraph and the second to the subgraph current before A |
| Nesting.EntryRun | gcc-ompinfo.c:258-261 | a run from procedure entry is the same run from the procedure subgraph and entry node it creates first |
| Nesting.BalancedRunFromEntry | gcc-ompinfo.c:258-293 | a balanced path starting at procedure entry ends in the procedure subgraph `cluster_<fn>`, registered under the root graph, and fails only on an unknown code or a bad label |
| Nesting.NestedPushPopFromEntry | gcc-ompinfo.c:258-293 | for `push A; push B; pop; pop` from procedure entry, the first pop returns to A's subgraph and the second to the procedure subgraph |
| Nesting.VisitNeverMisses | gcc-ompinfo.c:286-289 | on a tree none of whose paths closes more than is open, the lookup never misses; the registry only grows |
| Nesting.KidsNeverMiss | gcc-ompinfo.c:314-319 | the same holds for the dominator children, each starting from the same context |
| Nesting.FunctionNeverMisses | gcc-ompinfo.c:326-334 | a procedure whose paths stay balanced, counting its own subgraph, fails only on an unknown code or a bad label |
| Nesting.UnitNeverMisses | gcc-ompinfo.c:326-334 | the same holds for a whole compilation unit |
| Nesting.PopAtRootMisses | gcc-ompinfo.c:286-289 | a pop in the root graph finds no registered parent and aborts |
| Nesting.RunMissesWhenUnbalanced | gcc-ompinfo.c:286-289 | conversely, a run with a prefix that closes more regions than are open aborts |
| Nesting.VisitMissesWhenUnbalanced | gcc-ompinfo.c:286-289 | a tree with a path that closes more regions than are open makes the run abort |
| Nesting.KidsMissWhenUnbalanced | gcc-ompinfo.c:314-319 | if the i-th dominator child has such a path, visiting the children aborts |
| Nesting.FunctionMissesWhenUnbalanced | gcc-ompinfo.c:326-334 | a procedure with such a path, counting its own subgraph, aborts the run |
| Scenarios.SiblingsEachOpenProcedure | gcc-ompinfo.c:258-261 | two dominator siblings, a master then an ordered marker, both see no anchor, so each requests its own procedure subgraph and entry node; the first sibling's master gets id 1 and the second's ordered gets id 2 |
| Pipes.LabelPipe | gcc-ompinfo.c:151-160 | a label's pipe opens exactly when two descriptors are free; otherwise the plugin exits |
| Pipes.LabelPipesOutcome | gcc-ompinfo.c:149-216 | n labels in a row succeed exactly when the last finds two descriptors free after the n - 1 before it left theirs open; they leave n times the leak open |
| Pipes.AsWrittenExhausts | gcc-ompinfo.c:156-214 | as written, one label alone succeeds, but a unit with as many OMP-for loops as there are free descriptors runs out and exits |
| Pipes.AsWrittenExhaustsAt1021 | gcc-ompinfo.c:156-214 | with 3 descriptors open and a limit of 1024, 1020 OMP-for labels succeed and the 1021st exits |
| Pipes.ClosedNeverExhausts | gcc-ompinfo.c:149-216 | closing both ends, any number of labels succeeds exactly when one does, and the descriptor count is unchanged |

## Left out

- Graphviz calls (`agsubg`, `agnode`, `agedge`, `agset`, `agopen`, `agwrite`) are foreign code. Creating a subgraph or node is modelled as taking a fresh handle. Graphviz finds an existing subgraph or node by name instead of creating a new one, and this merge is not modelled: with two siblings, the model records `cluster_<fn>` and `<fn>()` twice where graphviz would return the first ones.
- Node shapes, colours and styles (`do_agset`, gcc-ompinfo.c:48-53) are not modelled. They are cosmetic, and their failure only prints a message.
- The pipe and pretty-printer plumbing of the label (gcc-ompinfo.c:141-162, 209-216) is I/O. The label is the concatenated string, and the expression dumps are opaque input strings. The newline added by the flush is counted in the length check. The descriptors the pipe takes are counted separately, by `Pipes`; the builder does not carry a descriptor count.
- A failing `fdopen` (gcc-ompinfo.c:156-160) also calls `exit(1)`. It fails only when memory runs out, which is not modelled.
- Label.MkForLabel: its "succeeds exactly when" ignores the pipe. When `pipe()` or `fdopen()` fails, the plugin calls `exit(1)` (gcc-ompinfo.c:151-160); the descriptor side of that is Pipes.LabelPipe. The read end is never closed, so each OMP-for leaks one descriptor, and enough OMP-for loops make `pipe()` (line 151) fail, and the plugin exits at line 154 (a finding, below). A label longer than the pipe's capacity (64 KiB on Linux) blocks a write to the pipe before line 214, because nothing reads it until then. The run then hangs and never reaches the length check at line 215; the model returns the length error instead.
- The splay tree is replaced by a map. Tearing it down at plugin finish is not modelled.
- Dominance computation and the GIMPLE accessors are compiler services. The dominator tree and the markers are inputs.
- Plugin registration, the pass gate, option parsing and writing the output file (gcc-ompinfo.c:336-454) are lifecycle plumbing and I/O.
- The printing of the procedure name (gcc-ompinfo.c:329) and of "Unknown OMP code!" is output only. The unknown-code error carries no code, as in the message.
- The construct counter is an unbounded natural number. C `int` overflow after 2^31 - 1 markers is not modelled.
- Strings are sequences of characters, not bytes.
- Names.FunctionSubgraphNameIsNotRegionName: holds only for procedure names without a dot. Names.FunctionSubgraphNameMayClash shows that a dotted name can take a region's subgraph name. The model records the two subgraphs separately either way.
- The OMP-for node name is modelled untruncated. The 16-byte truncation is kept as a finding, below.
- Nesting.VisitNeverMisses: states only that a balanced tree fails on an unknown code or a bad label. The invariant kept by the walk is stated separately, by Invariants.VisitKeeps.
- Nesting.RunMissesWhenUnbalanced: states that the run aborts, not which error it aborts with. An unknown code or a bad label earlier on the path can abort it first.

## Findings

| source | as written | input that shows it | evidently intended | confidence | as-written member | corrected member |
|---|---|---|---|---|---|---|
| gcc-ompinfo.c:225-227 | `snprintf` writes "omp_for.<id>" into a 16-byte buffer, so ids of 8 or more digits are cut to 15 characters | ids 1000000 and 10000000 both give "omp_for.1000000", so graphviz merges two loop nodes into one | the full name "omp_for.<id>", unique per id like every other construct name | not executed | Names.ForNodeNameAsWrittenCollides | Names.ForNodeNameInjective |
| gcc-ompinfo.c:156-214 | the read end of each label's pipe (`pipefp_rd`) is never closed; only the write end is, at line 210 | a unit with 1021 OMP-for loops, started with 3 descriptors open under a limit of 1024: the 1021st `pipe()` fails and the plugin exits at line 154 | close the read end after `fread`, so every label finds the descriptors the first one found | not executed | Pipes.AsWrittenExhaustsAt1021 | Pipes.ClosedNeverExhausts |
