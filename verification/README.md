# Verified model of frawk's middle end and bytecode back end

frawk compiles AWK programs to untyped control-flow graphs, converts them to SSA form, infers
types, lowers the result to typed register bytecode and interprets it, in parallel if asked to.
This project models the algorithms between the syntax tree and the library of builtins, in the
form the source gives them (classes whose methods update their fields, worklist loops, arrays of
instructions that are patched later), and proves what they are for:

* **Dominators and SSA.** `Dom`, with `DfsGrowth`, `LinkedForest`, `SemiNca` and `DomTables`:
  depth-first numbering, semidominators by path compression, immediate dominators, the dominator
  tree and dominance frontiers, each against its definition by paths. `Cfg`, with `PhiPlacement`,
  `Renaming`, `VersionStacks` and `WorkLists`: phi insertion by worklist and renaming with version
  stacks. `SsaForm`, `SsaMeaning` and `SsaStrict`: what both leave is strict SSA and computes what
  the original graph computes, for every interpretation of the builtins (`Semantics`).
* **Bytecode.** `Typers` lowers frames (`Frames`) to instruction vectors (`Layout`, `Bytecode`)
  with sequential phi moves and back-patched jumps. `CallSim` and `Simulation`: the machine follows
  the frames, which have activation records and parallel phis, through calls at any depth.
  `SsaFrames` (with `FrameRules`, `Regrouping`) and `Lowering`: frames that come from a renamed
  graph, their edges grouped by source, meet the rules this needs. `EndToEnd` puts SSA and bytecode
  together: if each block's straight-line code is translated soundly, the machine computes what the
  original graph computes. `StatementSoundness` shows that it is enough if each statement is, and
  `Countdown` takes a loop with a phi through the whole translation, down to what its bytecode prints.
* **Dataflow.** `Dataflow` solves join constraints over any lattice of finite height (`Lattices`).
  `FieldSets` (on `Words`) are the 64-bit column sets. `UsedFields` and `FieldPrecision`: the answer
  has exactly the columns that the program's writes bring to column reads. `FieldSoundness`: every
  column a run reads (`FieldPrograms`) is among them if numbers are written before they are read, and
  which columns can be missed otherwise.
* **Types.** `TypeStates`, `TypeNet`, `TypeConstraints`, `TypeSolution` and `TypeContexts`: which
  constraints statements put into the network, which grows while it is solved; solving ends, calls
  included, at or above what constraints bring. `TypeMeaning` says what that means for the program:
  the inferred types of the operands of every statement, in every instance of a function, fit.
* **Parallel stages.** `GlobalRefs` (call-graph closure of global references) and `RefsSuffice` (a
  function behaves the same wherever its globals do), `Stages` (slots between BEGIN, main loop and
  END), `Aggregation` and `ArrivalOrder` (combining the workers' results), and `Workers` (what END
  receives when the main loop ran in several threads).

Graphs are node counts with edges in insertion order; neighbours are visited newest edge first, as
petgraph does. Values, builtins, globals and the outside world are arbitrary: a theorem holds for
all interpretations of them. Integers are unbounded except where the word size is the point, and
floats are real numbers.

## Model

| member | source | states |
|---|---|---|
| Dom.DomInfo.constructor | src/dom.rs:46-60 | after the whole computation, every node's `idom` entry is its immediate dominator, for any graph whose nodes are all reachable |
| Dom.DomInfo.Dfs | src/dom.rs:79-103 | numbering from a node keeps what was numbered, numbers it and all it reaches unseen, in one interval, with every edge inside known to go no further right |
| DfsGrowth.TreeFromGrown | src/dom.rs:79-103 | the finished numbering is a depth-first spanning tree: a bijection in preorder, with every edge from a lower to a higher number running from an ancestor to its descendant |
| DfsTrees.AncIsChain | src/dom.rs:79-103 | the number intervals describe exactly the ancestor relation of the parent chains |
| Dom.DomInfo.Eval | src/dom.rs:61-77 | path compression returns the same minimum as a plain walk up the linked forest, and leaves every other answer as it was |
| LinkedForest.Compressed | src/dom.rs:61-77 | shortcutting a node past its ancestor keeps the forest's meaning |
| LinkedForest.WalkMinIs | src/dom.rs:61-77 | the walk's minimum is attained on the path and is below everything on it |
| Dom.DomInfo.Link | src/dom.rs:213-218 | linking makes a root the child of its tree parent and changes nothing else |
| Dom.DomInfo.LowestCandidate | src/dom.rs:107-133 | of a node's predecessors and their evaluated ancestors the lowest is the semidominator |
| Dom.DomInfo.Semis | src/dom.rs:107-133 | every semidominator is the lowest vertex with a path whose interior is numbered above the node |
| SemiNca.SemiFromCandidates | src/dom.rs:107-133 | a lower bound over all predecessors and their higher ancestors is the lowest start of a semidominator path |
| SemiNca.NcaIsIdom | src/dom.rs:137-150 | the nearest ancestor of the parent on the dominator chain that is not above the semidominator is the immediate dominator |
| Dom.DomInfo.Idoms | src/dom.rs:137-150 | walking up from the tree parent to the semidominator's level finds the immediate dominator of every node |
| Dominance.IdomUnique | src/dom.rs:137-150 | a node has at most one immediate dominator |
| Dom.DomInfo.DomFrontier | src/dom.rs:153-174 | the computed frontiers equal the definition if and only if the entry does not have exactly one incoming edge |
| DomTables.FrontierVerdict | src/dom.rs:153-174 | with one predecessor a node is in no frontier but possibly the entry's case, so skipping it is wrong exactly for an entry with one incoming edge |
| DomTables.EntrySkipped | src/dom.rs:160-165 | an entry with one incoming edge belongs to the frontiers of exactly the dominators of that edge's source, and the two-predecessor test leaves it out of every one of them |
| Dom.DomInfo.DomTree | src/dom.rs:177-190 | the children of a node are exactly the nodes it immediately dominates, each listed once |
| WorkLists.WorkList.Insert | src/common.rs:246-250 | an element joins the end of the queue unless it is waiting already |
| WorkLists.WorkList.Pop | src/common.rs:256-262 | elements leave in the order in which they came |
| Cfg.View.InsertPhis | src/cfg.rs:1962-2011 | a variable that may be renamed, is assigned to, and is no true global (global, and not confined to the main loop) gets one phi in exactly the blocks of its iterated dominance frontier, ahead of the statements, with an entry for every predecessor; nothing else gets any |
| Cfg.View.PlacePhis | src/cfg.rs:1980-2010 | draining the worklist ends, with the least set that contains the frontiers of all sites and of itself |
| PhiPlacement.IteratedFrontierUnique | src/cfg.rs:1967-2010 | there is only one iterated frontier, so the worklist order does not matter |
| VersionStacks.RenameState.GetNext | src/cfg.rs:2033-2042 | the next version is one nobody has had, and becomes the latest; globals stay at zero |
| VersionStacks.RenameState.Pop | src/cfg.rs:2043-2047 | popping takes back one push and leaves the counters |
| Cfg.View.RenameStmts | src/cfg.rs:2057-2075 | uses take the latest versions, definitions get fresh ones, phis keep their arguments |
| Cfg.View.PatchPhis | src/cfg.rs:2110-2119 | in every phi of a successor the first argument from this block gets this block's outgoing version |
| Cfg.View.RenameOutgoing | src/cfg.rs:2103-2120 | all outgoing edges get their conditions renamed and their targets' phis filled in |
| Cfg.View.RenameRecursive | src/cfg.rs:2050-2127 | the dominator subtree is renamed, nothing else is, and the version stacks are what they were |
| Cfg.View.Rename | src/cfg.rs:2128-2143 | the whole graph is renamed consistently from version zero at the entry; a name is exempt if and only if the program has an identifier of that name that is a true global |
| Cfg.View.ToSsa | src/cfg.rs:700-735 | dominators, phis and renaming together produce a conversion all of whose layers agree; true globals get no phis and stay at version zero in every assignment, use and branch |
| SsaForm.GlobalsUnversioned | src/cfg.rs:2128-2142 | a name marked global keeps version zero from the entry on, all over the renamed graph |
| SsaForm.EdgeVersion | src/cfg.rs:2078-2102 | a block without a phi for a variable starts with the same version on every incoming edge |
| SsaMeaning.PhiReads | src/cfg.rs:2110-2119 | a phi's argument for a predecessor is the version current at that predecessor's end |
| SsaMeaning.SameEntry | src/cfg.rs:2050-2127 | crossing an edge, phis included, keeps every tracked local's current version equal to the original local |
| SsaMeaning.SsaPreservesMeaning | src/cfg.rs:1962-2143 | after any number of steps both graphs are in the same block with the same world, and every latest version holds the original local's value, or both have halted with the same world |
| SsaStrict.OneDefinition | src/cfg.rs:2033-2042 | each nonzero version of a name is assigned by one statement |
| SsaStrict.UseIsDominated | src/cfg.rs:2057-2070 | an ordinary use of a nonzero version comes after its definition on every path |
| SsaStrict.PhiArgIsDominated | src/cfg.rs:2110-2119 | a nonzero phi argument is defined on every path to the end of its predecessor |
| SsaStrict.ConversionIsStrictSsa | src/cfg.rs:2022-2127 | the renamed graph is in strict SSA form |
| Typers.RegStatuses.NewReg | src/compile.rs:290-299 | a register nobody has been given, or the null register |
| Typers.Assembler.EmitMov | src/compile.rs:487-500 | one move, none for unused or null registers, an error for iterators |
| Typers.Assembler.EmitPushes | src/compile.rs:617-626 | locals without iterators, then arguments, pushed in order |
| Typers.Assembler.EmitPops | src/compile.rs:630-636 | the same registers popped in reverse |
| Typers.Assembler.EmitMoves | src/compile.rs:667-688 | the phi moves for all successors, newest edge first, from the first argument listed for this block |
| Typers.Assembler.EmitJumps | src/compile.rs:690-705 | branches in insertion order, without a jump to the next block |
| Typers.Assembler.RewriteJumps | src/compile.rs:707-713 | exactly the recorded jumps are redirected to the offsets of their blocks |
| Typers.Typer.RetRegs | src/compile.rs:551-556 | each function gets a result register of its own, new to every other use |
| Typers.Typer.LowerFrame | src/compile.rs:563-713 | the emitted vector is the frame's code, and the error case is exact |
| Typers.Typer.ToBytecode | src/compile.rs:549-715 | the result is the code of all called frames, or an error if and only if some frame takes, returns, fetches or joins an iterator |
| Layout.InstAt | src/compile.rs:602-664 | every instruction's code sits at its position in the finished vector |
| Layout.TailAt | src/compile.rs:665-713 | the moves and resolved branches of a block follow its instructions and lead up to the next block's start |
| Bytecode.PushAll | src/interp.rs:2575-2590 | a run of pushes leaves each type's registers on that type's stack, in order |
| Bytecode.PopAll | src/interp.rs:2591-2606 | a run of pops gives every register its value and the stacks what was below |
| CallSim.RunMoves | src/compile.rs:667-688 | ordered moves made one after another have the effect of all at once |
| CallSim.SimCall | src/interp.rs:2377-2382 | a call's pushes, jump and prologue bind the parameters in the callee to the argument values, and leave maps allocated during the call in all other map locals |
| CallSim.CallRuns | src/compile.rs:586-602 | whatever the registers hold, a call runs from the caller's first push to the callee's first instruction, with the caller's locals saved, the arguments in the parameters, and new maps in the other map locals |
| CallSim.MapsForget | src/compile.rs:586-592 | two machines at the same call agree on the callee's map locals behind its prologue, whatever they held before; if they differed in those only, they agree on all registers |
| CallSim.SimRet | src/interp.rs:2383-2391 | a return restores the caller's stacks and locals and delivers the result |
| CallSim.SimEnd | src/interp.rs:2366-2374 | the branches after the moves reach the block the frame semantics chooses, with phis applied |
| Simulation.RunMatches | src/interp.rs:2366-2391 | any number of frame steps is matched by machine steps |
| Simulation.NeverStuck | src/interp.rs:2366-2391 | the program counter never leaves the vector and no stack is popped empty |
| Simulation.CallDiscipline | src/compile.rs:586-645 | across a call at any depth, the callee's i-th parameter starts as the i-th argument and its other map locals as maps allocated during the call; afterwards return stack and value stacks have their contents again, saved locals their values, and the destination holds the returned value |
| Simulation.StartMatches | src/compile.rs:586-602 | a stage function starts in step with its frame, with newly allocated maps in its map locals |
| Simulation.InsideCall | src/compile.rs:609-645 | while callees run, what the caller has on the stacks stays |
| Regrouping.ProcessEdges | src/compile.rs:1033-1070 | a frame's edges are the graph's, added source by source, each source's in order of insertion |
| Regrouping.RegroupRearranges | src/compile.rs:1037-1070 | this order has every edge once and keeps the order of each source's edges |
| Regrouping.SameBranch | src/compile.rs:1043-1070 | frame and graph take the same edge out of a block when the condition registers hold what the conditions say |
| SsaFrames.MoveExplained | src/compile.rs:667-688 | every emitted move writes one version defined by one phi and reads the version current at the end of the block, or a value converted from it |
| SsaFrames.CurrentUnmoved | src/compile.rs:667-688 | no phi move changes a version that is current, so moves for branches not taken are harmless |
| SsaFrames.CurrentAcross | src/compile.rs:667-688 | what is current behind the phis of a successor is brought by one of them or was current before the edge |
| SsaFrames.RenamedFramesLower | src/compile.rs:549-715 | frames translated from conversions to SSA, edges grouped by source and slot instructions put in, meet every condition of the simulation |
| Lowering.BytecodeFollowsFrames | src/interp.rs:653-664 | from a fresh start, the bytecode of such frames goes through the frames' states |
| Lowering.BytecodeNeverStuck | src/interp.rs:653-664 | after any number of machine steps it has not got stuck |
| EndToEnd.EnterHeld | src/compile.rs:667-688 | entering a block, the frame's phis keep every version's register standing for the version's value |
| EndToEnd.FramesFollowGraph | src/compile.rs:1033-1070 | any number of blocks of the renamed graph is matched by frame steps, if the straight-line code of each block is translated soundly |
| EndToEnd.BytecodeComputesGraph | src/compile.rs:549-715 | under the same condition, the bytecode goes through the blocks of the original, unrenamed graph, with the same world and, in the registers of the latest versions, the same locals, and stops when it does |
| StatementSoundness.StatementsSuffice | src/compile.rs:1032-1070 | if the instructions of each statement do what it does, and those behind the last one evaluate the branch conditions and convert phi arguments, the blocks are translated soundly as that condition asks |
| Countdown.LoopIsSound | src/compile.rs:1032-1070 | all conditions of the composed theorem hold together of a loop with a phi, a conditional back edge and a return, converted and translated as the source does it |
| Countdown.LoopPrintsZero | src/compile.rs:549-715 | the loop's bytecode prints what the loop prints and stops, whatever the registers held before |
| Dataflow.Analysis.AddSrc | src/dataflow.rs:49-54 | the value is joined into the key's start value, nothing else changes |
| Dataflow.Analysis.AddDep | src/dataflow.rs:55-60 | exactly this dependency is added |
| Dataflow.Analysis.AddQuery | src/dataflow.rs:68-71 | exactly this key becomes a query |
| Dataflow.Analysis.Populate | src/dataflow.rs:86-95 | the sentinel depends on all queries, and the worklist holds exactly what it reaches |
| Dataflow.Analysis.Update | src/dataflow.rs:104-111 | one node is brought above all it depends on and no higher than needed |
| Dataflow.Analysis.Solve | src/dataflow.rs:96-119 | the loop ends on any graph, cycles included, and every node reachable from a query has the join of the start values of all nodes it reaches |
| Dataflow.FixpointIsJoin | src/dataflow.rs:96-119 | a settled assignment below all bounds is that join |
| Dataflow.SolutionHolds | src/dataflow.rs:55-60 | in the solution, a key that matters is above its start value and above its dependencies |
| Dataflow.RootIsJoinOfQueries | src/dataflow.rs:81-85 | `root` is the least value above all queries |
| FieldSets.FieldSet.Fill | src/pushdown.rs:128-150 | exactly the columns from this set's lowest to the other's highest are added, and the full set stays full |
| FieldSets.FieldSet.Union | src/pushdown.rs:106-108 | bitwise union; membership never shrinks |
| FieldSets.FieldSet.Set | src/pushdown.rs:158-164 | the column is added, or the set becomes full |
| FieldSets.SpanIs | src/pushdown.rs:120-150 | between the lowest bit of one and the highest of the other lie exactly the columns in between |
| FieldSets.GetMono | src/pushdown.rs:151-157 | a larger set says yes to at least as many columns, the full set included |
| FieldSets.FiIsNoColumn | src/pushdown.rs:91-96 | the reserved bit is not a column |
| FieldSets.FieldsLawful | src/pushdown.rs:167-177 | column sets under union are a join semilattice of height 64 |
| UsedFields.UsedFieldAnalysis.constructor | src/pushdown.rs:251-262 | the start values of the random generator and of FI |
| UsedFields.UsedFieldAnalysis.VisitHl | src/pushdown.rs:265-269 | a phi adds exactly its dependencies |
| UsedFields.UsedFieldAnalysis.VisitLl | src/pushdown.rs:270-306 | an instruction adds exactly its dependencies, contributions, queries and joins |
| UsedFields.UsedFieldAnalysis.Solve | src/pushdown.rs:309-319 | exactly the root's columns and those the joins add |
| FieldSoundness.EffectKeeps | src/dataflow.rs:672-679 | every instruction keeps registers, map keys, map values and iterators covered by the solution |
| FieldSoundness.InvMovMap | src/dataflow.rs:674-679 | aliasing a map keeps both names' solutions equal |
| FieldSoundness.NoFalseNegatives | src/pushdown.rs:10-13 | a column that a run reads is in the answer, if every number used up to there had been written, and not by a test (`in`, or a loop's own) |
| FieldPrograms.WrittenFirstReads | src/pushdown.rs:10-13 | definite assignment, a condition on the program alone, makes every number of every run one that was written so |
| FieldSoundness.OnlyLowMissed | src/pushdown.rs:10-13 | with no condition at all, only columns 0 and 1, or those of a join that starts at column 1, can be missed |
| FieldSoundness.RunAnalyses | src/compile.rs:812-837 | visiting a function and solving gives exactly the columns that its writes bring to column reads; these have every column of every run if numbers are written before they are read, and every column from 2 on (joins from 1 aside) in any case |
| FieldPrecision.KeyBits | src/pushdown.rs:264-306 | the solution at a register, or at a map's keys or values, that some column read depends on has exactly what some write brings there along moves, phis, maps and iterations |
| FieldPrecision.AnswerExact | src/pushdown.rs:309-319 | a column is in the answer if and only if it arrives at a number that columns are read by, or lies between numbers that arrive at the ends of a join, or any number can arrive at its end |
| FieldSoundness.UnwrittenReadsColumnZero | src/interp.rs:2053-2061 | `{ print $x } END { x = 1 }` reads column 0 in the main loop, and has no definite assignment |
| FieldSoundness.UnwrittenIsMissed | src/pushdown.rs:264-318 | ... which the analysis does not find |
| FieldSoundness.TestedReadsColumnZero | src/interp.rs:2053-2061 | `{ print $(7 in m) }` reads column 0 when 7 is not a key |
| FieldSoundness.TestedIsMissed | src/dataflow.rs:882-892 | ... which the analysis does not find either, since tests report no dependency |
| TypeStates.StepClimbs | src/types.rs:451-517 | a variable's new state is above its old one and above every dependency, strictly higher if it changed |
| TypeStates.StepLeast | src/types.rs:451-517 | a step fails only if no state is above the old one and all dependencies; otherwise the new state is below every such state, a drifting key type counting as Str |
| TypeStates.BasesJoin | src/types.rs:452-496 | strings win over floats, floats over integers, integers over nulls; keys that are not both integers are strings |
| TypeStates.LeqOrder | src/types.rs:451-517 | the order the states climb is a partial order with a rank |
| TypeStates.FloatKeysDrift | src/types.rs:484-496 | joining a state with itself changes it if and only if it is a map keyed by Float or Null, which becomes one keyed by Str for good |
| TypeStates.StepSettles | src/types.rs:451-517 | evaluated again with the same dependencies a variable keeps its state, unless that is a map keyed by Float or Null and some dependency has a key; a third evaluation changes nothing |
| TypeContexts.TypeContext.AddRule | src/types.rs:620-624 | a new node that knows nothing and waits |
| TypeContexts.TypeContext.AddDep | src/types.rs:630-633 | one edge; its source waits |
| TypeContexts.TypeContext.Constant | src/types.rs:835-845 | one node per constant state |
| TypeContexts.TypeContext.AddBuiltinCall | src/types.rs:923-943 | the call's result has a node of its own, computed from the arguments, told of every argument's changes, linked by what the builtin says of its arguments, and flowing on |
| TypeContexts.TypeContext.ConstrainStmt | src/types.rs:958-985 | afterwards the network has every constraint of the statement, and all it had |
| TypeConstraints.StmtSaysStill | src/types.rs:958-985 | a statement's constraints stay while the network grows |
| TypeContexts.TypeContext.ConstrainBody | src/types.rs:912-917 | ... and those of all statements of a function together |
| TypeContexts.TypeContext.GetFunction | src/types.rs:861-919 | the result is the instance for these argument states, missing ones unknown and extra ones dropped; a new one has its arguments bound, its result told to the function's notifier and its body constrained, and leads nowhere old but to constants and global names; if anything was built, fewer instances and constants are left to build |
| TypeContexts.TypeContext.AddBackEdges | src/types.rs:805-821 | whatever flows into a map gets one edge back per pair |
| TypeContexts.TypeContext.StepOne | src/types.rs:781-830 | one popped node lowers the measure of what is left, keeps everything not waiting above what flows in, calls included, and ends above the result of the instance for the argument states of each of its calls; false means a constraint on a state of the wrong kind, or states with nothing above them |
| TypeContexts.TypeContext.Solve | src/types.rs:773-834 | solving ends although calls add nodes and edges; success means every variable is at or above what each incoming edge brings, if the edge was there at the start, is a call, or leads to a name that is not global, and that flows into maps join equal states; failure means a type error somewhere |
| TypeContexts.FromProg | src/types.rs:701-712 | every stage's function has its instance; after success the states of the operands of all statements of all instances fit, flows into global names included for the stages' functions; failure means a type error |
| TypeMeaning.EvalIsLeast | src/types.rs:366-421 | a key, value, iteration or flow constraint fails on a source of the wrong kind only, and otherwise brings the least state that has room for its source |
| TypeMeaning.StmtHolds | src/types.rs:958-1094 | in a solved network, an assignment's target is above the operand, a lookup above the map's value type, an assigned map above key and value, a phi above its arguments, a call above the result of the instance for its operands, a builtin's call above its answer, with its operands as its hints say |
| TypeMeaning.IterHolds | src/types.rs:1067-1080 | an iterator runs over exactly the key type of its map |
| TypeMeaning.InstanceHolds | src/types.rs:895-919 | an instance's parameters are above the argument states it is for, and all its statements fit |
| TypeSolution.NothingWaits | src/types.rs:797-822 | an empty worklist means that edges bring nothing their targets are not above, those that came late into global names aside, and equal map types across flows |
| TypeSolution.SolvingGrown | src/types.rs:861-919 | building instances keeps the invariant of solving: what edges bring stays, new nodes and calls wait |
| TypeSolution.ChangedKeeps | src/types.rs:799-830 | so does a node that changes, since everything that reads it is told, through the notifier if its function was called |
| TypeSolution.LateFlow | src/types.rs:630-633 | a flow added from a settled constant wakes nobody: it counts if and only if its target was above the constant already |
| GlobalRefs.CallGraph.AccumDirect | src/compile.rs:950-975 | each function's set is what it mentions itself |
| GlobalRefs.CallGraph.GetGlobalRefs | src/compile.rs:942-1016 | each function's set is the union of the globals mentioned by all functions it reaches |
| RefsSuffice.RefsSuffice | src/compile.rs:942-1016 | register files that agree on a function's set and on all that is no global give the same worlds, calls included, and agree again at every moment; other globals are left as they were |
| RefsSuffice.SharingSuffices | src/cross_stage.rs:47-59 | a worker with what BEGIN stores for the main loop, and the start values of other globals, agrees with BEGIN on every global of the main loop |
| RefsSuffice.ListedIfTouched | src/bytecode.rs:596-605 | an operation, allocation or move lists exactly the registers it can read or change, and that of a move to itself |
| RefsSuffice.TestsExact | src/compile.rs:502-519 | the branch a block takes depends on no global outside the set if and only if no branch that can be reached tests one |
| RefsSuffice.TestOverlooked | src/compile.rs:502-519 | in `{ if (x) print }` the global is tested only, so it is not found, and the loop prints or not depending on it |
| Stages.SlotCounter.GetSlot | src/compile.rs:378-387 | no two registers of one type share a slot, and a register keeps its slot |
| Stages.SlotInsts | src/compile.rs:410-437 | one instruction per register that has a type, an error for iterators |
| Stages.AddSlots | src/compile.rs:913-940 | BEGIN and main loop store, main loop and END load what they share, through common slots |
| Stages.StoresHold | src/interp.rs:138-145 | stores leave every register's value in its slot |
| Stages.LoadsBring | src/interp.rs:247-262 | loads find their slots and bring the values, though strings and maps are taken out |
| Workers.Gather | src/interp.rs:610-619 | the main thread's slots, combined with those of every worker's result that arrives |
| Workers.StagesCommunicate | src/interp.rs:514-632 | every loaded slot was stored earlier; what BEGIN shares arrives in every thread of the main loop, and END starts with the aggregate of what all threads left, or with what BEGIN left if there is no main loop |
| Workers.GatheredParts | src/interp.rs:610-619 | in END, numbers are the sum over all threads, per key for maps, and strings the last nonempty one |
| Workers.ArrivesUnchanged | src/interp.rs:610-619 | the main thread's value reaches END unchanged if and only if the other threads add nothing: sums of zero, no other nonempty last string, no new keys |
| Workers.BeginValueArrives | src/cross_stage.rs:47-59 | what passes through every thread untouched arrives as it was if and only if there is one thread or all its numbers are zero |
| Workers.OnlyBeginAndEnd | src/cross_stage.rs:47-59 | an integer that only BEGIN and END mention arrives once for every thread: 5 becomes 10 in two |
| Aggregation.AggMap | src/interp.rs:91-101 | keys of both, values aggregated, missing keys counting as zero |
| Aggregation.AggValue | src/interp.rs:68-101 | numbers are added, strings replaced unless empty, maps merged |
| Aggregation.CombineVec | src/interp.rs:128-134 | slots up to the longer length, aggregated pairwise |
| Aggregation.Core.Combine | src/interp.rs:224-227 | one result is combined into the slots of all nine types, and into the record count |
| Aggregation.Core.CombineAll | src/interp.rs:612-619 | after all arrivals every slot is the aggregate over the start value and all workers, in order of arrival |
| ArrivalOrder.PartsFold | src/interp.rs:91-101 | combining slots combines each of their parts: a map's value at a key comes from the values at that key |
| ArrivalOrder.NumbersAdd | src/interp.rs:68-79 | every number is the sum over the start value and all workers, missing entries counting as zero |
| ArrivalOrder.LastStays | src/interp.rs:80-89 | a string is the last nonempty one to arrive, or the start value if all are empty |
| ArrivalOrder.StringsDependOnOrder | src/interp.rs:612-619 | every order of arrival leaves the same slots if and only if strings that meet in a slot, or at a key, agree |
| ArrivalOrder.ArrivalOrderIrrelevant | src/interp.rs:612-619 | record count, numbers and maps to numbers are the same in any order of arrival, and so is everything if strings that meet agree |
| ArrivalOrder.TwoStrings | src/interp.rs:80-89 | two strings can change places exactly if one is empty or they are equal |

## Left out

- Dom.DomInfo.DomFrontier: the frontiers are not the defined ones when the entry has exactly one incoming edge, since the test for two predecessors skips it; the contract says exactly when they are.
- Dom.DomInfo.constructor: graphs have at most 2^32 - 1 nodes, the width of the source's node numbers.
- FieldSoundness.NoFalseNegatives: covers integer phis, moves, arithmetic, integer maps and column reads of one function (or of stages run in turn); columns that reach a read through user-defined functions, map-typed phis or `split` are not tracked by the analysis. Definite assignment is sufficient, not necessary: a column read through an unwritten register may be in the answer for another reason.
- EndToEnd.BytecodeComputesGraph: that the straight-line code of a block does what its statements do is a condition, per block or per statement, since the type-directed translation of statements is left out, and calls in it are taken to return; a version defined by a phi that the exit block's slot instructions push aside, or of an iterator, has no register that holds it.
- TypeContexts.TypeContext.Solve: an edge added while solving wakes only its source. If it leads from an instance that a call has built to a global name, and its source is settled, the flow can be missed, as in `function f(a) { x = "s"; return a } BEGIN { z = "s"; print x; y = f(z); print x }`; all other edges are covered, calls to global names included.
- RefsSuffice.RefsSuffice: branch conditions and phi arguments are not among the registers that are collected. That none of them is a global outside the set is a condition, which phi arguments meet, since no true global has a phi, and `{ if (x) print }` does not.
- Aggregation.Core.Combine: integers do not overflow, and floats are real numbers, so their sums do not depend on order.
- Workers.StagesCommunicate: the stages end normally; a stage that fails or asks to exit, which skips END, and a worker without input, which sends nothing, are not told apart from absent ones.
- Parsing, the lowering of the syntax tree to control-flow graphs (its loops can add parallel edges) and the shape of its results: taken as preconditions.
- The type-directed translation of statements to instructions; frames are related to renamed graphs by their edges, phis, and what they read and define.
- The several hundred library builtins, apart from their effect on registers; printing, files, commands and the record reader.
- The other code generators, regular-expression folding, the taint and string-constant analyses.
- Iterators across calls: the bytecode does not save them.
- Turning inferred states into register types, and the notification object between threads.
- Hash maps and hash sets: a set is walked in some order, a function's locals have a fixed one.
- The source's longest loops are split into several methods here; the split has no counterpart there.
