# A model of the rules engine, with proofs

This project models six parts of the engine in Dafny and proves what they promise.
Run `dafny verify dfyconfig.toml` to check all of it.

**Decimal arithmetic** (`BigNumber`, `DigitLoops`, `BigArithmetic`, `BigRounding`,
`BigDivision`, `BigRemainder`, `BigText`). The numbers that function nodes compute
with: a sign, an exponent and an array of digits. `Value` says which real number
these stand for and `Normal` says which of them the library produces. The digit
loops are methods with the same carries, borrows and remainders as the source;
addition, subtraction, multiplication and comparison are proved exact, division,
`mod` and rounding are proved against `Rounded` and `Trunc` on reals, and parsing is
proved to invert printing. What these say is pinned down by inequalities, mode by mode
(`RoundedUnitsExact`, `TruncExact`), and what a text says character by character
(`LiteralExactly`, `NormalText`, `ExponentialText`).

**The decision graph** (`EdgeCascade`, `CascadeLocality`, `DecisionProgram`,
`PrunedGraph`, `PruningOrder`, `PrunedResult`, `DecisionWalk`, `GraphWalker`,
`DecisionGraph`). A walk over an acyclic graph that prunes it at every switch and
starts over. `Cascade` is the least set of edges that a rejection takes along. `Run`
evaluates a graph by plain recursion. A switch can be judged once all switches above
it have been; judging one does not change what another one is given or rejects, so
every order of judgements ends with the same edges (`Pruned`), which depend on the
program and the request only. The main result is that an evaluation, with all its
restarts, gives what pruning the graph first and running it once gives
(`PruneThenRun`), and that one which stops earlier, at an output node or after 1000
restarts, gives just what the endings it has visited have in the pruned graph. Which
edges a switch accepts is told by the conditions of its statements (`AcceptsExactly`),
what a pruning takes along edge by edge (`CascadeByEdges`), and the walk turn by turn
(`TurnExactly`, `VisitExactly`).

**The policy driver** (`WriterIndex`, `PolicyStore`, `PolicyBlocks`, `PolicyRuns`,
`PolicyDriver`, `DriverSafety`, `CommitReasons`, `DriverAgrees`, `FixedPolicies`, `FixedDriver`,
`OrderNeeded`, `LazyEager`, `DemandAnswers`). Blocks run on demand: what a block always
reads, then a selection, then what the selection reads, then the commit to the store
they share, an object of objects in which a write below anything else is dropped. What
holds for any demands is proved for any demands: no block commits twice, every commit
is safe, and the store is what the commits made of the input. Every commit has its
reason (`AllReasoned`): its block picked on what there was at its unconditional reads at
some earlier point, and computed what it wrote from what there was at all its reads;
the writers of the paths of every arm and cell that it used have finished.

The driver is compared with runs of all blocks one after the other: topological ones,
where a block comes after all that it may demand, and runs on demand, where it comes
after what it then demands. Two blocks that may run at the same stage can run in either
order (`Diamond`) if conflicting blocks are ordered by what they demand (`Orderly`):
blocks of which one writes at, above or below what the other one writes or reads. So
all such runs agree, and for every input, selection and commit they agree only then
(`RunsAgreeIff`). For topological runs what blocks *may* demand counts; for the driver
only what they demand whatever is picked: it agrees with the topological runs, whatever
blocks compute, exactly if in this sense conflicting blocks are ordered and every block
is indexed (`DriverAgreesIff`). An evaluation of some roots shows at a path what the
other runs show exactly if the roots lead to all blocks that write there whatever is
picked (`ShowsIff`). Four policies on which the driver leaves something else than a
topological run are given and evaluated: a block writes below an object that another one
writes (`OverlapDiffers`); it depends on that one, but only for what it does not pick,
so that all topological runs agree (`ChoosingDiffers`); it writes below a path that is
read and that the index does not have because of the data model (`UnindexedDiffers`); it
writes a path of the data model and is never run (`ModelledDiffers`).

**Shared values** (`ValueHeap`, `VariableCleaner`, `PortableArena`). Values whose
arrays and objects are cells of a heap. The cleaner removes reserved properties from
a heap with cycles; the arena encodes a heap with sharing so that every cell is
encoded once, and the materializer builds every node once. What they promise is told by
following paths: from a root every path leads where it led before, or nowhere if it
takes a reserved property; in what arrives every path leads to what it led to in what
was sent.

**The analysis store** (`PathOrder`, `ImportComponents`, `GraphAnalysis`,
`AnalysisStore`, `StoreHistory`, `StoreWorld`, `GraphCache`, `StaleEntries`). The components of the
import graph, and the analyses of decision graphs that are kept with stamps of what
they read. An analysis is an arbitrary program whose questions depend on earlier
answers; graphs may refer to each other in cycles. An entry does not remember which
graphs were being analysed when it was made, nor which policies were connected, and a
function that was unknown counts as unchanged. `RightEntry` says when an entry that
hits is the one to use. A question that uses only right entries is answered as by an
analysis from scratch, over any history of edits, function types, resolvers and
questions, and for an analyzer that reports all it is told only then. The documents and
functions at the time of a question are read off the steps before it alone
(`WorldAfter`). Three
conditions on a history are enough for that (`Harmless`). Three histories in which
the database answers with something else are given: a cycle of references
(`StaleAfterCycle`), a new importer (`StaleAfterImport`) and a late resolver
(`StaleAfterResolver`).

**The input validator** (`InputValidator`). Which errors an input has is a set
(`InputErrors`), the validator reports that set, and it is empty exactly if the input
conforms to the schema. An error is reported exactly where following its path from the
input leads to a value that is not what the schema, followed along the same path, wants
there (`ErrorsByPlace`). Inputs may share values and be cyclic; the nesting limit
makes the validator terminate.

`Wrappers` holds the types that these parts share.

Foreign code is a parameter: node handlers and switch conditions (`Semantics`),
selecting and committing a block (`Artifact`), number and JSON conversion
(`Conversions`), and the analysis of one graph (`Analyzer`).

## Model

| member | source | states |
|---|---|---|
| BigNumber.NormalZero | core/engine/js/v1/big.js:312-314 | a number in normal form is zero exactly if its first digit is 0, which is how the source tests for zero |
| BigNumber.PrependZeros | core/engine/js/v1/big.js:534-536 | reversing, pushing zeros and reversing again puts the zeros in front |
| BigNumber.PopTrailingZeros | core/engine/js/v1/big.js:712-713 | dropping trailing zeros keeps the value and leaves none |
| BigNumber.ValueOfDigits | core/engine/js/v1/big.js:84-102 | the first digit of a number counts 10^e, and each one after n others 10^(e - n) |
| DigitLoops.AddDigits | core/engine/js/v1/big.js:700-703 | the loop that adds from the end of the shorter array gives the digits of the sum, with a carry of at most 1 |
| DigitLoops.Borrow | core/engine/js/v1/big.js:567-569 | borrowing turns zeros into nines up to a nonzero digit and keeps the number, one unit moved |
| DigitLoops.BorrowExists | core/engine/js/v1/big.js:566-567 | where the source borrows, a nonzero digit is there to borrow from: the loop never runs off the left end |
| DigitLoops.SubtractDigits | core/engine/js/v1/big.js:564-573 | the in-place subtraction gives the digits of the difference |
| DigitLoops.DigitProduct | core/engine/js/v1/big.js:880-885 | every intermediate sum of the multiplication is at most 99, so every carry is one digit |
| DigitLoops.MultiplyRow | core/engine/js/v1/big.js:874-889 | one turn of the outer loop adds one digit times the other number, shifted |
| DigitLoops.MultiplyDigits | core/engine/js/v1/big.js:868-889 | the two loops give the digits of the product, and the last carry is its first digit |
| BigArithmetic.FirstDifference | core/engine/js/v1/big.js:541-547 | the first digit that differs decides the order of the numbers |
| BigArithmetic.ExponentOrder | core/engine/js/v1/big.js:321-322 | between normal numbers the larger exponent is the larger magnitude |
| BigArithmetic.AtMostOneZero | core/engine/js/v1/big.js:891-893 | a product of normal digit arrays has at most one leading zero, so one shift is enough |
| BigArithmetic.AddAligned | core/engine/js/v1/big.js:693-716 | the sum of aligned digit arrays, in normal form, is the sum of the values |
| BigArithmetic.SubtractAligned | core/engine/js/v1/big.js:558-593 | the difference of aligned arrays, larger first, in normal form except for zero, is the difference of the values |
| BigArithmetic.LineUp | core/engine/js/v1/big.js:523-548 | after equalising exponents both arrays keep their values and the smaller one is recognised |
| BigArithmetic.SmallerDigits | core/engine/js/v1/big.js:539-547 | digit by digit comparison decides which array is smaller when exponents agree |
| BigArithmetic.Big.Cmp | core/engine/js/v1/big.js:303-333 | cmp is 1, 0 or -1 exactly if the value is larger, equal or smaller |
| BigArithmetic.Big.Plus | core/engine/js/v1/big.js:645-719 | plus is exact, in normal form, for all signs, exponents and lengths, with the sign of a zero result, and terminates although it calls minus |
| BigArithmetic.Big.Minus | core/engine/js/v1/big.js:493-597 | minus is exact, in normal form, for all signs, exponents and lengths, with the sign of a zero result |
| BigArithmetic.Big.Times | core/engine/js/v1/big.js:835-900 | times is exact, in normal form, with the sign of the operands' signs |
| BigRounding.RoundedUnitsNear | core/engine/js/v1/big.js:223-227 | what the four modes mean: never a unit away, down, up, at most half a unit with ties going up, and at most half a unit with ties to even |
| BigRounding.RoundedUnitsExact | core/engine/js/v1/big.js:22-26 | in each mode there is one whole number it can be: that with n <= t < n + 1, with -1/2 < n - t <= 1/2, the nearest and of two the even one, and that with n - 1 < t <= n |
| BigRounding.IncrementDigits | core/engine/js/v1/big.js:233-244 | rounding up the last digit carries through nines and keeps normal form |
| BigRounding.Round | core/engine/js/v1/big.js:193-251 | for any number of digits, also none or fewer, and any discarded part: the result is the cut-off number rounded in the given mode and normal; an unknown mode is an error and changes nothing |
| BigDivision.CompareDigits | core/engine/js/v1/big.js:389-399 | the comparison of divisor and remainder is the order of their values |
| BigDivision.QuotientDigit | core/engine/js/v1/big.js:386-423 | with a remainder below ten divisors the inner loop finds the quotient digit, at most 9, and the remainder left |
| BigDivision.LongDivision | core/engine/js/v1/big.js:381-438 | the digits are those of the quotient of dividend and divisor, and something is left over exactly if the division does not come out even |
| BigDivision.DivideNonzero | core/engine/js/v1/big.js:364-443 | the quotient of nonzero numbers is correctly rounded and normal |
| BigDivision.Div | core/engine/js/v1/big.js:340-444 | div is x / y rounded to DP places in mode RM, in normal form, for all x, y and DP from 0 to a million; other DP, a zero divisor and modes other than 0 to 3 are errors in that order |
| BigDivision.RoundTo | core/engine/js/v1/big.js:776-782 | rounding to any number of decimal places from minus to plus a million is correct, and other places or modes are errors |
| BigDivision.RoundedIsNearest | core/engine/js/v1/big.js:768-775 | in the two nearest modes no other multiple of the unit is closer |
| BigDivision.RoundedInUnits | core/engine/js/v1/big.js:768-782 | rounding to dp places gives a whole number of units of 10^-dp, that of the magnitude, with the sign |
| BigRemainder.TruncatedQuotient | core/engine/js/v1/big.js:621-626 | with DP and RM set to zero div gives the truncated quotient, and both are put back |
| BigRemainder.TruncatedRemainder | core/engine/js/v1/big.js:628-628 | x minus the truncated quotient times y is smaller than y and zero or of the sign of x |
| BigRemainder.Mod | core/engine/js/v1/big.js:603-629 | mod differs from x by a multiple of y, is smaller than y and zero or of the sign of x; the operands, DP and RM are as before; a zero divisor is an error |
| BigRemainder.OneRemainder | core/engine/js/v1/big.js:603-629 | there is only one such number |
| BigRemainder.TruncExact | core/engine/js/v1/big.js:621-628 | truncation gives the one whole number less than one away on the side of zero |
| BigText.NumericIffLiteral | core/engine/js/v1/big.js:138-140 | the recogniser accepts exactly the decimal literals of the grammar |
| BigText.LiteralExactly | core/engine/js/v1/big.js:71-71 | a literal is, character by character, a minus or none, digits with a point before, among or behind them or none, and an e or E with a sign or none and digits, or no exponent |
| BigText.LiteralValueExactly | core/engine/js/v1/big.js:135-182 | the whole digits count as a number, each digit behind the point a tenth of the one before, an exponent a factor of ten for each one, downwards after a minus, and a minus in front turns the sign |
| BigText.RenderInjective | core/engine/js/v1/big.js:135-182 | a text is the rendering of one literal only |
| BigText.Parse | core/engine/js/v1/big.js:135-182 | parsing a literal gives its value in normal form, and anything else is an error |
| BigText.NotationValue | core/engine/js/v1/big.js:258-279 | either notation of a number is a literal of its value |
| BigText.NormalText | core/engine/js/v1/big.js:267-281 | normal notation is a minus or none, then 0. and zeros and the digits, or the digits with a point after the first e + 1, or the digits and zeros |
| BigText.ExponentialText | core/engine/js/v1/big.js:263-265 | exponential notation is a minus or none, the digits with a point after the first, and e- or e+ with the digits of the exponent |
| BigText.NatDigitsExactly | core/engine/js/v1/big.js:263-265 | the digits of an exponent are the only ones of its value without a zero in front |
| BigText.Stringify | core/engine/js/v1/big.js:258-282 | stringify writes the number in the notation asked for, with its sign unless told otherwise |
| BigText.NormalFormUnique | core/engine/js/v1/big.js:135-182 | two normal numbers of the same sign and value have the same exponent and digits |
| BigText.PrintAndParse | core/engine/js/v1/big.js:258-282 | parsing what stringify printed gives back sign, exponent and digits in both notations |
| BigText.ToStringAndParse | core/engine/js/v1/big.js:960-964 | toString loses nothing but the sign of zero |
| EdgeCascade.CascadeLeast | core/engine/src/decision_graph/walker.rs:271-295 | the cascade is inside every set that holds the removed edges and is closed under the two rules |
| EdgeCascade.CascadeClosed | core/engine/src/decision_graph/walker.rs:278-291 | the cascade itself is such a set |
| EdgeCascade.CascadeByEdges | core/engine/src/decision_graph/walker.rs:271-295 | edge by edge: it holds the edges removed; an edge that stays has an in-edge of its source that stays, if there were any, and an out-edge of its target that stays, if there were any |
| EdgeCascade.CascadeLeastByEdges | core/engine/src/decision_graph/walker.rs:271-295 | and it is inside every other set of which that is true |
| EdgeCascade.CascadeTwice | core/engine/src/decision_graph/walker.rs:223-225 | removing one edge after the other gives the cascade of all of them, so the order does not matter |
| EdgeCascade.StableGraph.RemoveEdgeRecursive | core/engine/src/decision_graph/walker.rs:271-295 | the mutual recursion removes only edges of the cascade, leaves nothing half done and terminates |
| EdgeCascade.StableGraph.Prune | core/engine/src/decision_graph/walker.rs:210-225 | the edges left are the live ones without the cascade of the rejected ones, and the nodes removed are those that lost a side |
| CascadeLocality.ExemptionIdle | core/engine/src/decision_graph/walker.rs:210-225 | the cascade of a switch comes out the same if executed nodes are taken not to pass it on |
| CascadeLocality.SettledKeepInEdges | core/engine/src/decision_graph/walker.rs:271-295 | a node that has been executed keeps all its in-edges through a pruning, or is removed by it |
| CascadeLocality.ConeKeepsInEdges | core/engine/src/decision_graph/walker.rs:271-295 | what is above a final node without out-edges loses no edge to a later pruning |
| CascadeLocality.OtherKeepsEdges | core/engine/src/decision_graph/walker.rs:271-295 | a pruning at one switch takes neither an edge of another switch that can be judged nor an edge into what is above that one |
| CascadeLocality.PartKeepsEdges | core/engine/src/decision_graph/walker.rs:271-295 | a pruning stays within the part of the graph that hangs together with the switch |
| DecisionProgram.AcceptsExactly | core/engine/src/decision_graph/walker.rs:177-221 | a first-hit switch accepts the handle of the first statement whose condition is empty or true on the input and no other, a collect switch those of all such statements, and no switch an edge without a handle |
| DecisionProgram.MergeAllExactly | core/engine/src/decision_graph/walker.rs:126-141 | no data merge to the empty object; the first are the head, and each of the others is merged into what those before it gave |
| DecisionProgram.PresentExactly | core/engine/src/decision_graph/walker.rs:126-130 | the data merged are those of the predecessors that have any, in order |
| DecisionProgram.PredecessorsExactly | core/engine/src/decision_graph/walker.rs:116-121 | predecessors are the sources of exactly the edges into the node, the latest edge first |
| DecisionProgram.SuccessorsExactly | core/engine/src/decision_graph/walker.rs:236-237 | successors are the targets of exactly the edges out of it, the latest edge first |
| DecisionProgram.RunExactly | core/engine/src/decision_graph/graph.rs:188-258 | a run gives the input node what its handler gives for the request, a switch the merged results of its predecessors, and any other node what its handler gives for these |
| PrunedGraph.NodesExactly | core/engine/src/decision_graph/walker.rs:278-293 | a node is left unless it had in-edges or out-edges and has lost them all |
| PrunedGraph.Diamond | core/engine/src/decision_graph/walker.rs:167-233 | a switch that can be judged still can be after another one has been, and rejects the same edges |
| PrunedGraph.JudgeBoth | core/engine/src/decision_graph/walker.rs:167-233 | judging two switches in either order leaves the same edges |
| PruningOrder.SameEnd | core/engine/src/decision_graph/walker.rs:143-243 | all orders of judgements that go on until no switch can be judged end with the same edges and the same switches judged |
| PruningOrder.AnyOrderPrunes | core/engine/src/decision_graph/walker.rs:143-243 | whatever switches have been judged, in whatever legal order, going on from there ends with the pruned graph |
| PrunedResult.JudgedAreDecided | core/engine/src/decision_graph/walker.rs:210-221 | at any stage a judged switch that is left keeps only edges that it accepts on what the single run of the remaining graph gives it |
| PrunedResult.PrunedIsDecided | core/engine/src/decision_graph/walker.rs:210-221 | in the pruned graph every switch below judged switches that gets an input keeps only edges that it accepts on it |
| PrunedResult.EndingsOfPruned | core/engine/src/decision_graph/walker.rs:81-93 | the endings a walk has visited are endings of the pruned graph with the results they have there, and no others among the visited nodes are |
| PrunedResult.PartOfPruned | core/engine/src/decision_graph/walker.rs:69-75 | once the switches that hang together with the input nodes are judged, these are the nodes that do so in the pruned graph |
| PrunedResult.PartExactly | core/engine/src/decision_graph/walker.rs:236-237 | the part holds the input nodes that are left, with a node those that share an edge with it, and nothing that is not needed for that |
| PrunedResult.EndingsExactly | core/engine/src/decision_graph/walker.rs:81-93 | the results of exactly the remaining nodes without out-edges are merged into an empty object one after the other in node order |
| PrunedResult.PrunedAnyRank | core/engine/src/decision_graph/walker.rs:143-243 | the pruned graph and its result depend on the program and the request only |
| DecisionWalk.JudgedOk | core/engine/src/decision_graph/walker.rs:167-233 | judging a switch and pruning keeps every invariant: data stay right for the current in-edges, and judged switches keep their input |
| DecisionWalk.SetDataOk | core/engine/src/decision_graph/graph.rs:282-289 | storing the result of a node whose predecessors have data keeps every invariant |
| DecisionWalk.NodeDataExactly | core/engine/src/decision_graph/graph.rs:188-258 | what a remaining node holds is what its handler gave for the request if it is the input node, the merged data of its current predecessors if it is a switch, and what its handler gave for these otherwise |
| DecisionWalk.WalkAgreesWithRun | core/engine/src/decision_graph/walker.rs:143-243 | at any time what a remaining node holds is what one recursive evaluation of the remaining graph gives it |
| DecisionWalk.InputAgreesWithRun | core/engine/src/decision_graph/walker.rs:116-141 | a node is executed, and a switch judged, on the input that this evaluation gives it |
| DecisionWalk.FedIsGrounded | core/engine/src/decision_graph/walker.rs:155-160 | above a node whose predecessors have data every switch has been judged |
| DecisionWalk.TrailGrows | core/engine/src/decision_graph/walker.rs:167-233 | the switches judged by the walk, removed ones included, form a legal order that leads from the loaded edges to exactly those that are left |
| DecisionWalk.ResultAgreesWithRun | core/engine/src/decision_graph/walker.rs:81-93 | wherever the walk stops, the merged endings are those of a single run of the pruned graph on the nodes visited |
| DecisionWalk.NoNewEnds | core/engine/src/decision_graph/walker.rs:278-293 | no remaining node has lost all its in-edges or all its out-edges |
| GraphWalker.GraphWalker.Reset | core/engine/src/decision_graph/walker.rs:69-75 | a restart forgets the visits and keeps results and judged switches |
| GraphWalker.GraphWalker.EdgesToRemove | core/engine/src/decision_graph/walker.rs:210-221 | the edges collected are exactly the live out-edges that the switch does not accept on the merged data of its predecessors |
| GraphWalker.GraphWalker.JudgeSwitch | core/engine/src/decision_graph/walker.rs:167-233 | the new state: without rejected edges the switch is only marked; otherwise the cascade of the rejected edges is gone and the walk starts over from the input nodes left |
| GraphWalker.JudgementKeepsWalk | core/engine/src/decision_graph/walker.rs:167-233 | judging a switch keeps what holds of a walk, each switch at most once, and leaves fewer to judge |
| GraphWalker.GraphWalker.VisitNode | core/engine/src/decision_graph/walker.rs:165-239 | the new state after a node is marked, judged if it is a new switch, and its successors are pushed unless the walk starts over |
| GraphWalker.VisitExactly | core/engine/src/decision_graph/walker.rs:165-239 | field by field: the node is marked and its successors pushed; a switch not judged before is judged, and if it rejects edges they are pruned with their cascade, nodes that lose a side go, visits are forgotten, results stay, and the input nodes left are next |
| GraphWalker.TurnExactly | core/engine/src/decision_graph/walker.rs:154-163 | a turn takes the top of the stack: a visited node is dropped, one with unvisited predecessors is put back below these, any other one is visited and handed out unless the walk starts over |
| GraphWalker.UnvisitedExactly | core/engine/src/decision_graph/walker.rs:255-263 | the predecessors put on top are those not visited, in their order |
| GraphWalker.VisitKeepsWalk | core/engine/src/decision_graph/walker.rs:165-239 | a node visited after its predecessors is handed out with its input, nothing that has to be visited is forgotten and nothing else waits, or the walk starts over |
| GraphWalker.GraphWalker.Next | core/engine/src/decision_graph/walker.rs:143-243 | next terminates, gets there turn by turn, hands out a node all of whose predecessors have data, never one visited before in this pass, and returns nothing only when all work is done or after 1000 restarts, and then at once |
| GraphWalker.OneMoreJudged | core/engine/src/decision_graph/walker.rs:169-227 | every switch judged leaves fewer to judge, which bounds the restarts |
| DecisionGraph.BuildGraph | core/engine/src/decision_graph/graph.rs:64-90 | the edges built connect the nodes that the ids name, of several with one id the last, or the first id of the first edge that names none is reported, the source before the target |
| DecisionGraph.BuiltIsWellFormed | core/engine/src/decision_graph/graph.rs:64-90 | whatever is built can be evaluated: its edges connect its nodes |
| DecisionGraph.ExecuteNode | core/engine/src/decision_graph/graph.rs:178-295 | a node is executed at most once, a failing one included; a failure is the failure of the single run |
| DecisionGraph.Evaluate | core/engine/src/decision_graph/graph.rs:164-297 | the errors before the walk, in order; otherwise a complete walk has visited exactly the nodes of the pruned graph that hang together with the input nodes and its result is that of pruning first and running once; a walk that stops earlier merges the results that the visited endings have in the pruned graph; no handler runs twice, failing ones included, and none after that of an output node; the walk gets there turn by turn; there are at most as many restarts as switches, and with fewer than 1000 switches the walk is complete or has reached an output node |
| DecisionGraph.FailureAgrees | core/engine/src/decision_graph/graph.rs:243-268 | a handler that fails was given the input of the single run of the remaining graph, which has no result for this node either |
| DecisionGraph.CompleteVisitsPart | core/engine/src/decision_graph/walker.rs:236-242 | the nodes visited by a complete walk are exactly those that hang together with an input node, in the remaining graph and in the pruned one |
| DecisionGraph.FewRestarts | core/engine/src/decision_graph/walker.rs:69-75 | the number of restarts is at most the number of switches |
| WriterIndex.WritersOfLongestPrefix | core/engine/src/policy/evaluator.rs:439-454 | the writers of a property are those of its longest dotted prefix that has any |
| WriterIndex.WritersOfLongestPrefixLoop | core/engine/src/policy/evaluator.rs:439-454 | the loop over the dots finds them |
| WriterIndex.RegisterWriters | core/engine/src/policy/queries/dependency.rs:433-492 | every path written and every path above it, unless the data model has it, is owned by the first block that writes there or below |
| WriterIndex.CollectDemandWriters | core/engine/src/policy/queries/dependency.rs:214-239 | the writers of an owned path are exactly the owners of the owned paths at and below it, its own owner first |
| WriterIndex.OwnersHead | core/engine/src/policy/queries/dependency.rs:214-239 | every indexed block is the first writer of a path that it owns |
| WriterIndex.IndexOfExclusive | core/engine/src/policy/queries/dependency.rs:214-239 | where no block writes above, at or below what another one writes, the index built has every block as a writer of what it writes and only blocks that write there or below, and covers all paths but those of the data model |
| WriterIndex.DemandRunsAll | core/engine/src/policy/evaluator.rs:433-454 | then a demand of a covered path runs every block that writes above, at or below it |
| PolicyStore.ExtendsIsPrefix | core/engine/src/policy/queries/dependency.rs:660-665 | one path is above or equal to another exactly if the names between its dots are the first names of the other |
| PolicyStore.LookWritten | core/types/src/variable/mod.rs:252-271 | what is written is found, unless something above is no object; then the store is as before |
| PolicyStore.LookElsewhere | core/types/src/variable/mod.rs:252-271 | a write changes nothing at paths that are neither above nor below |
| PolicyStore.PartsExactly | core/types/src/variable/mod.rs:252-271 | the parts of a path are the names between its dots |
| PolicyStore.FieldByField | core/types/src/variable/mod.rs:252-271 | a write makes the objects that are missing, goes into those that are there, and is dropped where something else is |
| PolicyStore.OrderMatters | core/types/src/variable/mod.rs:252-271 | two writes can be swapped exactly if neither path is above or equal to the other, or the upper write is dropped, or what it writes holds the lower value already or would drop it |
| PolicyBlocks.CollectedIsRead | core/engine/src/policy/evaluator.rs:266-283 | whatever a selection makes a block demand is a read that its plan allows |
| PolicyBlocks.TableReadsExactly | core/engine/src/policy/evaluator.rs:276-280 | p is read by a table pick exactly if the pick used a row and column of which the plan has a cell with p among its paths |
| PolicyBlocks.TableReadsInOrder | core/engine/src/policy/blocks/mod.rs:197-206 | in the order of the cells used, and for each in the order of the plan |
| PolicyBlocks.MatchReadsExactly | core/engine/src/policy/blocks/mod.rs:187-195 | a match pick reads the paths of the first arm of that name, and nothing if no arm matched or has that name |
| PolicyBlocks.DemandedExactly | core/engine/src/policy/evaluator.rs:619-627 | a block demands what its picks read, in their order, or in strict order if it is iterated |
| PolicyBlocks.SelectedExactly | core/engine/src/policy/evaluator.rs:503-515 | the picks are what select gives for each instance, an error is that of the first instance whose select fails, and nothing is picked if there is no array to iterate over |
| PolicyBlocks.CommittedExactly | core/engine/src/policy/evaluator.rs:517-545 | what a block writes is spread from what commit gives for each instance, given what it gave for those before, and an error is that of the first instance whose commit fails |
| PolicyRuns.OrderExists | core/engine/src/policy/evaluator.rs:456-466 | without cyclic demands blocks can be put into an order in which each comes after what it demands |
| PolicyRuns.ResultExactly | core/engine/src/policy/evaluator.rs:468-545 | what a block ends with in a run: nothing without a rule, the first error among the writers of its reads, what it selects on what there is at its unconditional reads, and what it computes on what there is at all of them |
| PolicyRuns.FirstErrorExactly | core/engine/src/policy/evaluator.rs:437-454 | the first error among blocks is that of the first one that has an error |
| PolicyRuns.Diamond | core/engine/src/policy/evaluator.rs:468-545 | where conflicting blocks are ordered, two blocks that may run at a stage can run in either order, with the same picks, results and store |
| PolicyRuns.SameRuns | core/engine/src/policy/evaluator.rs:468-545 | so all runs of the same blocks leave the same store, results, errors included, and picks |
| PolicyRuns.SameResults | core/engine/src/policy/evaluator.rs:468-545 | and runs of different blocks give the same results to those that they share |
| PolicyRuns.ViewAgrees | core/engine/src/policy/evaluator.rs:474-479 | a block sees the same after any two runs that have the writers of what it reads |
| OrderNeeded.RunsAgreeIff | core/engine/src/policy/queries/diagnostics.rs:256-297 | all topological runs, and all runs in which each block comes after what it then demands, agree whatever blocks compute, exactly if conflicting blocks are ordered by what they may demand, or demand whatever is picked |
| PolicyDriver.CommitsOnceAndSafely | core/engine/src/policy/evaluator.rs:456-466 | over any run, with cyclic demands or without, no block commits twice, and each commit finds every writer of its reads finished or below it on the stack |
| PolicyDriver.Driver.Demand | core/engine/src/policy/evaluator.rs:433-437 | a demand runs the writers of the longest prefix in order, up to the first error |
| PolicyDriver.Driver.RunBlock | core/engine/src/policy/evaluator.rs:456-466 | a block runs unless it has run or is active, terminates for any demands, and ends as specified, with the set of active blocks as it was |
| PolicyDriver.Driver.RunBlockInner | core/engine/src/policy/evaluator.rs:468-495 | demand, select, demand, commit, in this order |
| PolicyDriver.Driver.SelectAndCommit | core/engine/src/policy/evaluator.rs:517-545 | the selection sees the store before what it demands has run, the commit the one after |
| DriverSafety.BlockKeeps | core/engine/src/policy/evaluator.rs:456-466 | for any demands: after a success the block has finished or is active, and all commits were safe |
| DriverSafety.PathsStayIn | core/engine/src/policy/evaluator.rs:433-454 | only blocks of a set that holds the writers demanded, and with each block the writers of what it demands, run |
| DriverSafety.NothingPending | core/engine/src/policy/evaluator.rs:137-138 | after a success everything that a committed block read has finished, cyclic demands included |
| DriverSafety.EvaluationIsSafe | core/engine/src/policy/evaluator.rs:132-138 | an evaluation leaves what the commits made of the input one after the other, and after a success the writers of its roots and of all that was read have finished |
| CommitReasons.EvaluationHasReasons | core/engine/src/policy/evaluator.rs:468-545 | every commit is what its block selected, at an earlier point of the run, on what there was at its unconditional reads, and computed on what there was at all its reads; a finished block without a commit had no array to iterate over; an error is that of some selection or commit made like that |
| CommitReasons.UsedFinished | core/engine/src/policy/evaluator.rs:533-545 | after a success the writers of every path of a cell that a committed block used, of the arm that it matched and of its unconditional reads have finished |
| DriverAgrees.BlockFollows | core/engine/src/policy/evaluator.rs:456-545 | without cyclic demands and where conflicting blocks are ordered, a block that the driver runs ends as in the run of all blocks, with the same error or the same writes |
| DriverAgrees.EvaluationFollows | core/engine/src/policy/evaluator.rs:132-138 | an evaluation ends with the first error among the writers of its roots in the run of all blocks; without one the order in which blocks finished is a run without errors that leaves its store |
| DriverAgrees.ReferenceExists | core/engine/src/policy/evaluator.rs:456-545 | without cyclic demands there is a run of all blocks to compare with |
| LazyEager.EvaluateRoots | core/engine/src/policy/evaluator.rs:132-138 | for any demands: every commit, every block finished and an error has its reason, and after a success the writers of the roots and of the paths of every cell and arm used have finished; against a run of all blocks: the first error, the same at every path whose writers have run, and the same store and success if everything is demanded |
| LazyEager.ExclusiveIsOrderly | core/engine/src/policy/queries/diagnostics.rs:256-297 | blocks that do not write above, at or below what others write, and whose reads the index covers, are ordered |
| LazyEager.IndexHeads | core/engine/src/policy/queries/dependency.rs:214-239 | with the index that is built every indexed block is the first writer of some path, so that roots can start with it |
| LazyEager.DriverAgreesIff | core/engine/src/policy/evaluator.rs:433-563 | the driver fails exactly when topological runs have an error and leaves the same store otherwise, for all inputs, selections, commits and roots that demand everything, exactly if every block is indexed and conflicting blocks are ordered whatever is picked |
| LazyEager.ShowsIff | core/engine/src/policy/evaluator.rs:433-563 | where conflicting blocks are ordered, a path shows after a successful evaluation what it shows after topological runs, whatever blocks compute, exactly if the roots lead to all blocks that write at, above or below it whatever is picked |
| DemandAnswers.OverlapDiffers | core/engine/src/policy/queries/diagnostics.rs:256-297 | a block writes an object and another one below it: demanding the upper path keeps the lower write, demanding the lower path first loses it, and either order is topological |
| DemandAnswers.ChoosingDiffers | core/engine/src/policy/evaluator.rs:533-545 | the lower block may read what the upper one writes, but picks another arm: all topological runs keep its write, the driver loses it |
| DemandAnswers.UnindexedDiffers | core/engine/src/policy/queries/dependency.rs:464-468 | a block reads a path that the index does not have because of the data model: one topological run has an error, and the driver succeeds |
| DemandAnswers.ModelledDiffers | core/engine/src/policy/queries/dependency.rs:433-436 | a block writes a path of the data model: the driver never runs it, and topological runs do |
| DemandAnswers.OverlapAnswers | core/engine/src/policy/evaluator.rs:132-138 | the index built and the driver run on the first policy leave these stores |
| DemandAnswers.ChoosingAnswers | core/engine/src/policy/evaluator.rs:132-138 | on the second one too |
| DemandAnswers.UnindexedAnswers | core/engine/src/policy/evaluator.rs:132-138 | on the third one the driver succeeds |
| DemandAnswers.ModelledAnswers | core/engine/src/policy/evaluator.rs:132-138 | on the fourth one it leaves the path empty |
| VariableCleaner.Cleaner.Clean | core/engine/src/decision_graph/cleaner.rs:18-53 | one call marks and scrubs exactly the newly reached cells, leaves none of their references unvisited, visits nothing without need, and terminates on cycles |
| VariableCleaner.WalkedCell | core/engine/src/decision_graph/cleaner.rs:38-52 | marking a cell, removing its reserved properties and visiting what is left does a whole cell |
| VariableCleaner.WalkedIsReachable | core/engine/src/decision_graph/cleaner.rs:18-53 | what is visited is what can be reached without a reserved property |
| VariableCleaner.ReachableByPaths | core/engine/src/decision_graph/cleaner.rs:18-53 | the cells that can be reached are those at the ends of paths from the roots that do not take the key $nodes |
| VariableCleaner.CleanAll | core/engine/src/decision_graph/graph.rs:300-311 | after cleaning all roots every path from a root leads where it led before, or nowhere if it takes the key $nodes; objects at the ends of the other paths have lost that key and nothing else, and all other cells are unchanged |
| VariableCleaner.NothingReservedIsLeft | core/engine/src/decision_graph/cleaner.rs:45-48 | in the cleaned heap no path from a root meets a reserved property |
| VariableCleaner.CleaningInSteps | core/engine/src/decision_graph/graph.rs:301-310 | cleaning roots in steps, again or in another order gives the same heap |
| PortableArena.Arena.Add | bindings/nodejs/src/convert.rs:32-81 | while indices do not wrap, the index returned decodes to the value, every earlier index still does, and a cell met before gets its old index |
| PortableArena.Arena.Push | bindings/nodejs/src/convert.rs:74-80 | a node gets the next index, modulo 2^32, and an array or object is remembered by address |
| PortableArena.PushKeepsFaithful | bindings/nodejs/src/convert.rs:74-80 | adding a node keeps every remembered cell decodable, indices distinct and each composite node owned by a cell |
| PortableArena.DecodeLater | bindings/nodejs/src/convert.rs:176-218 | nodes added later do not change what an index decodes to |
| PortableArena.OneNodePerCell | bindings/nodejs/src/convert.rs:39-43 | there are as many array and object nodes as cells met: each is encoded once |
| PortableArena.NodeOfValue | bindings/nodejs/src/convert.rs:45-72 | a value has a node of its kind with the same content: for an array one child for each item in order, for an object fields of its names, each the node of the item or entry |
| PortableArena.UnfoldAlike | bindings/nodejs/src/convert.rs:176-218 | a value without sharing looks along every path like the one on the heap |
| PortableArena.EncodeRoots | bindings/nodejs/src/convert.rs:98-116 | any list of roots with one memo decodes to the roots, with children before parents, up to 2^32 nodes; the cells met are exactly those at the ends of paths from the roots, and there are as many array and object nodes |
| PortableArena.Materializer.ValueOf | bindings/nodejs/src/convert.rs:165-174 | the cached decoder gives what plain decoding gives and builds no node twice |
| PortableArena.Materializer.Build | bindings/nodejs/src/convert.rs:176-218 | building a node uses only earlier nodes |
| PortableArena.MaterializeRoots | bindings/nodejs/src/convert.rs:222-243 | what arrives is what was sent: along every path from a root both lead equally far, to the same leaf, as many items or the same names |
| PathOrder.SortDedupSorts | core/engine/src/policy/evaluator.rs:626-627 | sorting without repetitions sorts |
| PathOrder.PathLessExactly | core/engine/src/policy/evaluator.rs:626-627 | a path comes before another if it is the beginning of it or has the smaller character where they first differ |
| ImportComponents.ComputeImportGraph | core/engine/src/policy/queries/scope.rs:475-497 | there is an edge exactly for every import of a parsed policy by a parsed policy |
| ImportComponents.Collect | core/engine/src/workspace/db.rs:812-823 | the walk with a stack collects exactly the policies connected to the root, each once |
| ImportComponents.SameComponentIffConnected | core/engine/src/workspace/db.rs:799-826 | two policies are in the same component exactly if they are connected by imports in either direction |
| ImportComponents.ComputeComponents | core/engine/src/workspace/db.rs:799-834 | every parsed policy is in exactly one component, the one the map names, components are the connected sets, and members are sorted |
| ImportComponents.PinnedByMembers | core/engine/src/workspace/graph/queries.rs:105-108 | with unchanged members the component of a policy is the same exactly if no member is linked to a policy outside |
| ImportComponents.NotPinnedByMembers | core/engine/src/workspace/graph/queries.rs:105-108 | recording the members is not enough: a new importer changes the component and no member |
| InputValidator.NoEntityErrors | core/engine/src/policy/validator.rs:126-168 | an entity has no errors exactly if it conforms, nested within the levels that are left |
| InputValidator.NoPropertyErrors | core/engine/src/policy/validator.rs:178-193 | a property has no errors exactly if it conforms |
| InputValidator.NoKindErrors | core/engine/src/policy/validator.rs:212-245 | a value has no errors for a kind exactly if it conforms to it, dictionaries and reference pools included |
| InputValidator.NoErrorsIffConforms | core/engine/src/policy/validator.rs:78-114 | an input has no errors exactly if it conforms |
| InputValidator.ErrorsByPlace | core/engine/src/policy/validator.rs:78-265 | an error is reported exactly if its path leads from the input to a value that is not null, and the schema, followed along the same path, wants something there that the value is not, with that expected and what the value is |
| InputValidator.WrongTells | core/engine/src/policy/validator.rs:170-265 | what an error got is the type or text of the value, and the value is not what was expected |
| InputValidator.MoreLevelsAllowMore | core/engine/src/policy/validator.rs:126-134 | the nesting limit only ever rejects |
| InputValidator.FromInput | core/engine/src/policy/refs.rs:12-31 | the pools are those of all targets, with the ids of the items of their arrays |
| InputValidator.PoolExactly | core/engine/src/policy/refs.rs:12-31 | an id is in the pool of a target exactly if it is the string at id of some item of the array at the path of the target |
| InputValidator.Validator.ValidateEntity | core/engine/src/policy/validator.rs:126-168 | exactly the errors of the entity are added, and the depth is as before on every path |
| InputValidator.Validator.ValidateKind | core/engine/src/policy/validator.rs:212-245 | exactly the errors of the value for the kind are added |
| InputValidator.Validate | core/engine/src/policy/validator.rs:78-114 | the errors reported are exactly what is wrong at the places of the input that the schema speaks of, each with the path of its own place, nested in up to 32 entities, and there are none exactly if the input conforms |
| GraphAnalysis.FreshPinned | core/engine/src/workspace/graph/queries.rs:19-37 | an analysis comes out the same wherever the documents, absent ones included, the functions and the components that it read are the same, and the same of the graphs that it asked for are being analysed; cycles of references included |
| GraphAnalysis.ScratchAnalysis | core/engine/src/workspace/graph/queries.rs:19-37 | an analysis from scratch asks one question after the other, each depending on the answers before, until it has no more or has asked its limit, and ends with what it makes of all answers |
| GraphAnalysis.FreshSameIff | core/engine/src/workspace/graph/queries.rs:92-122 | for an analyzer that reports all it is told, on unchanged documents, only then |
| GraphAnalysis.AskedBelow | core/engine/src/workspace/graph/queries.rs:92-103 | where references have no cycle an analysis asks only for graphs below its own |
| GraphAnalysis.FreshAnyStack | core/engine/src/workspace/graph/queries.rs:92-103 | so it makes no difference which graphs are being analysed |
| AnalysisStore.HitMatches | core/engine/src/workspace/db.rs:369-393 | a hit means that all that was read is unchanged, exactly if no resolver could resolve now what was unknown then |
| AnalysisStore.RightEntryIsFresh | core/engine/src/workspace/db.rs:369-399 | an entry that hits is what an analysis from scratch gives now if, of the graphs it asked for, the same are being analysed as when it was made, components are the same and nothing has become resolvable |
| AnalysisStore.FreshEntryIsRight | core/engine/src/workspace/db.rs:369-399 | for a reporting analyzer only if |
| AnalysisStore.ServeFresh | core/engine/src/workspace/graph/queries.rs:19-37 | what is served, through nested analyses and entries, is the analysis from scratch with all that it reads if every entry used is right; what is stored then is exact |
| AnalysisStore.ServeTells | core/engine/src/workspace/graph/queries.rs:19-37 | for a reporting analyzer and a store of rightly made entries only if |
| StoreHistory.MembersKeptIff | core/engine/src/workspace/graph/queries.rs:105-107 | with the documents of a component unchanged, as its stamps say, it is the same component exactly if nothing outside is linked to it |
| StoreHistory.CalmEntryIsRight | core/engine/src/workspace/db.rs:369-399 | where references have no cycle, an entry made among none of the graphs it asked for is right when it hits, if no new policy is linked to its components and it knows all functions |
| StoreHistory.RightAnswerIsFresh | core/engine/src/workspace/db.rs:227-427 | after any history, a question that uses only right entries is answered as by an analysis from scratch |
| StoreHistory.FreshAnswerIffRight | core/engine/src/workspace/db.rs:227-427 | for a reporting analyzer, as long as all questions before used only right entries, only such a question is |
| StoreHistory.HarmlessIsRight | core/engine/src/workspace/db.rs:227-427 | a history uses only right entries if references have no cycle when a question is asked, no policy is newly linked to a component that stayed the same, and no stored analysis depends on an unknown function when a resolver is set |
| StoreWorld.DocsAfter | core/engine/src/workspace/db.rs:227-242 | after any steps a path has a document exactly if the last step that edits it put that one there |
| StoreWorld.ResolverAfter | core/engine/src/workspace/db.rs:317-320 | the resolver in force is the last one that was set |
| StoreWorld.OutcomeKnown | core/engine/src/workspace/graph/function.rs:32-102 | what is known of a function is the type that it was given last, or else what the resolver then in force gave the first question that was told, or else what the resolver now in force gives |
| StoreWorld.WorldKnown | core/engine/src/workspace/db.rs:227-427 | there is one such world after any steps, and it is the one in which questions are answered |
| StoreWorld.EntriesAfterQuestion | core/engine/src/workspace/db.rs:745-762 | after a question only paths that have a document have a stored analysis |
| GraphCache.ComputeSnapshot | core/engine/src/workspace/db.rs:745-796 | the snapshot names for every policy the list of exactly the policies connected to it by imports |
| GraphCache.Db.CachedGraphAnalysis | core/engine/src/workspace/db.rs:369-399 | the entry is returned exactly if all documents and functions it read are as stamped, and what it read is recorded in the enclosing frame |
| GraphCache.Db.StoreGraphAnalysis | core/engine/src/workspace/db.rs:401-427 | the entry made holds the stamps of everything read |
| GraphCache.Db.FunctionOutputType | core/engine/src/workspace/graph/function.rs:32-82 | the outcome does not change by asking, and the state recorded is the outcome |
| GraphCache.Db.GraphAnalysis | core/engine/src/workspace/graph/queries.rs:19-37 | stored or new, for any references, cyclic ones included, it ends with the answer and the store that the specification gives, and all that was read, through nested analyses too, is recorded in the enclosing frame |
| GraphCache.Db.DecisionSignature | core/engine/src/workspace/graph/queries.rs:92-122 | a graph under analysis answers with a recursion, another one with its signature, a policy for its component; what is read is recorded |
| GraphCache.Db.PolicySignature | core/engine/src/workspace/graph/queries.rs:104-118 | the signature of a policy is that of all policies connected to it, and all of them are recorded |
| GraphCache.Db.SetDocument | core/engine/src/workspace/db.rs:227-230 | an edit puts the document in place, drops the snapshot and keeps the stored analyses |
| GraphCache.Db.RemoveDocument | core/engine/src/workspace/db.rs:236-242 | removal drops the snapshot if there was something to remove |
| GraphCache.Db.SetFunctionType | core/engine/src/workspace/graph/function.rs:94-102 | a new function type drops the snapshot and keeps the stored analyses |
| GraphCache.Db.SetFunctionResolver | core/engine/src/workspace/db.rs:317-320 | so does a new resolver |
| GraphCache.Replay | core/engine/src/workspace/db.rs:227-427 | over any history of edits, function types, resolvers and questions, starting with an empty store: a question is answered if the last step that edits its path put a graph there; every answer whose question uses only right entries is an analysis from scratch in the world that the steps before make up, and for a reporting analyzer, as long as the earlier ones did, only such answers are |
| StaleEntries.StaleAfterCycle | core/engine/src/workspace/graph/queries.rs:95-99 | a refers to b, b to c, c to a: asked for a and then for c, the store answers for c with what it found under a, which is not an analysis from scratch |
| StaleEntries.StaleAfterImport | core/engine/src/workspace/graph/queries.rs:105-107 | after a policy that imports a policy a graph refers to has been added, the store answers for the graph as before, which is not an analysis from scratch |
| StaleEntries.StaleAfterResolver | core/engine/src/workspace/db.rs:384-390 | after a resolver has been set, the store answers as before, which is not an analysis from scratch |
| StaleEntries.StaleAnswers | core/engine/src/workspace/db.rs:227-427 | the database run through these three histories gives these answers |

## Left out

- BigText.Parse: numbers given as JavaScript numbers, and exponents whose text JavaScript writes or reads as a rounded double, are not modelled; exponents are unbounded integers.
- BigText.Stringify: an exponent of 10^21 or more, which JavaScript would print in its own exponential form, is printed in full.
- BigArithmetic.Big.Plus: digits, exponents and array lengths are unbounded; the copies made by the constructor are copies, but converting strings on the way is left to parse.
- `sqrt`, `pow`, `prec`, `toFixed`, `toPrecision`, `toExponential`, `toNumber` and `valueOf` of the decimal library: they rest on doubles or only combine the operations above.
- DecisionGraph.Evaluate: the answer of the library's cycle test is an argument, required to be right; schema validation of input and output nodes counts as part of their handlers, tracing, timing and async execution are not modelled.
- DecisionWalk.WalkAgreesWithRun: holds for handlers and conditions that depend on the merged input only; the `$nodes` context, which shows them the data of removed nodes too, is not modelled.
- Merging of node data is a function on values. Incoming data are merged by cloning what is written to; the endings are merged in place, so that in the source endings that share a nested object can change each other's data and those of the nodes above, which is not modelled.
- LazyEager.EvaluateRoots: what a block selects and commits is a function of what there is at its reads: a value, nothing, or something above that is no object; the results of the instances of an iterated block are spread over paths after the last one, and an iterated block that fails writes nothing. The hydration of references, sharing between stored values, the environment mirror, instance slots, traces and operand snapshots are not modelled.
- LazyEager.DriverAgreesIff: a policy with cyclic demands has no topological run to compare with; for its evaluations only what `DriverSafety` states is. Runs of all blocks one after the other are a reference and nothing that the engine does.
- LazyEager.ShowsIff: for roots that do not demand everything the condition is given for policies whose conflicting blocks are ordered.
- WriterIndex.RegisterWriters: rules come as one list of writes; nodes for reads, types and instance sources of the dependency graph are not modelled.
- VariableCleaner.Cleaner.Clean: object properties are visited in an arbitrary order; dynamic values are leaves, as in the source.
- PortableArena.Arena.Add: values that contain themselves are excluded, since the encoder does not terminate on them; beyond 2^32 nodes, where indices wrap around, nothing is promised.
- PortableArena.Materializer.ValueOf: the JavaScript engine's constructors are value constructors that do not fail, and interned property names are names.
- InputValidator.Validate: errors are compared as a set, because object entries come in no fixed order; paths and expectations are structured values and not formatted text.
- Building the input schema from the visible policies is not modelled: the schema is an argument.
- GraphCache.Db.GraphAnalysis: the states of resolved functions are compared as such and not as 64-bit hashes.
- GraphCache.Db.DecisionSignature: the signature of a policy is taken to depend on the documents of its component; the base scope that the shallow analysis of rules takes from all policies is not modelled.
- StoreHistory.HarmlessIsRight: the three conditions are enough and not necessary; what is necessary for a reporting analyzer is said by `FreshAnswerIffRight`.
- The list of pending function requests, the caches of parsed policies, shallow analyses and units, and diagnostics of the workspace are not modelled.
- Bindings other than the Node one, loaders, the template engine, the expression language and HTTP are not modelled.
