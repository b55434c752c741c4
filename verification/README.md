# The cminus-f compiler, modelled and proved

This project models the compiler from its syntax tree to optimised LightIR and proves that its passes do
what they are for. All of it rests on one semantics of LightIR (`IR.dfy`): ints, floats and pointers,
memory, a step for each instruction, phis evaluated in parallel on the incoming edge, 32-bit wrap-around,
division that truncates and has no value for a zero divisor, conversions between ints and floats, and calls
that go to an oracle for what other functions do to the world: memory, and a trace of what functions
outside the module have done, such as writing output. A run that reads a slot or a cell that was never
written has no meaning, and neither has one that stores a value of another type in a slot. The preservation
theorems speak of runs that return; for code generation, runs that never end are matched as well.

What is proved, pass by pass:

* **Code generation** (`Cminus`, `Codegen`, `CodegenCfg`, `CodegenSim`, `CodegenExpr`, `CodegenStmt`,
  `CminusfBuilder`, `StaticCheck`, `CodegenArrays`, `SlotTypes`). The visitor, with its insertion point,
  flags, scope stack and predecessor lists, is a class proved equal to a function of the syntax tree. The
  graph of every generated function is well formed, and every source run that returns is matched by the
  generated code: same value, memory and trace.
  The meaning of the source is given by the tags of values at run time; that conversions are inserted where
  it needs them, from static types alone, is part of the proof. A static check of the syntax tree says
  exactly which programs are compiled at all, and the arrays that the code reserves are those declared.
* **Whole programs** (`Program`, `Toplevel`). Functions are compiled one by one; a source file with its
  global variables, its functions and their recursive calls keeps its meaning in the generated module.
* **From one pass to the next** (`CodegenDefs`, `PlainCode`, `Types`, `TypedSsa`, `Pipeline`). In generated
  code definitions dominate their uses and operands have the types their instructions want; generated
  functions are what SSA construction asks for exactly when the dominator analysis ends on them and no
  number variable is indexed; what comes out of both passes implements the source, is typed when its calls
  are, and computes no address by a phi unless an array is passed to it.
* **The whole compiler** (`Typing`, `Modules`, `GvnTypes`, `Optimiser`). A call of typed code changes global
  variables and the arrays that it is given, and nothing else. So what the passes ask of calls holds in
  every module of compiled code, and `Optimiser.OptimisedIsCorrect` takes a program from its source through
  code generation, SSA construction, dead-code removal, value numbering and dead-code removal again.
* **Dominators** (`Graph`, `DomTree`, `Dominators`). The iteration ends with exactly the dominators, it
  ends because a measure falls with every update, and the frontiers are exact.
* **SSA construction** (`PhiSites`, `Renaming`, `Promotion`, `RenameSteps`, `RenameWalk`, `RenameStacks`,
  `RenameTree`, `RenameOrder`, `Mem2Reg`, `SsaPass`, `SsaForm`). Phis go to the least iterated frontier, the
  recursive renaming keeps its stack discipline, and the function that comes out runs like the one that
  went in.
* **Dead code and purity** (`DeadCode`, `FuncInfo`, `Purity`). What is left is exactly what leads on to a
  store, a branch, a return or an impure call; sweeping preserves runs, and a second round changes nothing.
  The purity worklist is exact and its answer is semantic.
* **Value numbering** (`GvnExpr`, `GvnTransfer`, `Gvn`, `GvnEffect`, `GvnPass`, `GvnJoin`). Members of a class
  have equal values and replacing them preserves runs, in functions without joins; there constants are
  propagated and repeated computations merged. The join of two partitions is their meet.
* **Def-use graph** (`DefUse`). Replacing uses, filling slots and erasing values keep slots and use lists
  in step.

Three things the code does that a reader should know, each proved:

* A block that cannot be reached but branches to a reachable join makes the runner loop of
  `create_dominance_frontier` run for ever (`DomTree.RunnerStops` gives the exact condition). The code
  generator makes such a block: `while (1) { if (1) return 0; else return 0; }` (`LostBlock.RunnerLost`).
* Renaming stops at an empty stack when a block has no value for a variable that a block renamed earlier
  has stored. Which block is renamed earlier depends on the order in which the children of a dominator are
  visited, a set of pointers in the code; `SsaForm.DiamondDependsOnOrder` gives a function on which the
  order decides. The functions that no order stops are exactly those in which a use without a value lies
  above everything that gives the variable a value (`RenameOrder.HarmlessIsExact`), as in those that store
  every variable in the entry block before they load it there.
* `get_first_addr` looks at the first operand of a phi only, so a function may pass for pure and change a
  global variable (`Purity.PhiAddressMisjudged`). The theorem on purity therefore asks that phis which take
  part in an address have local operands only. Generated code in SSA form has no such phis at all when no
  array is passed, so in compiled modules what the analysis calls pure is pure (`Pipeline.CompiledPureCall`).

An assignment evaluates its right-hand side before the index of its target, as the code does
(src/cminusfc/cminusf_builder.cpp:1022-1036).

## Model

| member | source | states |
|---|---|---|
| Dominators.Dominators.PostOrderVisit | src/optimization/Dominators.cpp:74-82 | numbers exactly the blocks reached for the first time, the visited block highest; every other new block has a predecessor with a higher number |
| Dominators.Dominators.CreateReversePostOrder | src/optimization/Dominators.cpp:66-72 | the order and the ids are a bijection between the reachable blocks and 0..n-1, entry highest, and every block but the entry has a predecessor with a higher id |
| Dominators.Dominators.Intersect | src/optimization/Dominators.cpp:126-139 | terminates at the block whose idom chain is the common part of the two chains, the lowest common ancestor |
| DomTree.FingerStep | src/optimization/Dominators.cpp:128-137 | moving the lower finger up loses no block common to both chains, and its idom exists |
| Dominators.Dominators.MeetOfPreds | src/optimization/Dominators.cpp:100-117 | the chain of the result holds exactly the blocks on the chains of all predecessors that have an idom |
| DomTree.UpdateKeepsDominators | src/optimization/Dominators.cpp:110-121 | an update never drops a true dominator from any chain |
| DomTree.UpdateShrinks | src/optimization/Dominators.cpp:118-121 | an update only ever makes chains smaller |
| DomTree.UpdateKeepsClimbing | src/optimization/Dominators.cpp:91-123 | an update keeps every chain inside the DFS parent's chain, and keeps blocks common to all predecessors at or above the idom |
| DomTree.UpdateLowersSlack | src/optimization/Dominators.cpp:118-121 | every update after the first link of a block lowers the measure that bounds the passes |
| DomTree.FixpointIsDominance | src/optimization/Dominators.cpp:91-123 | at a fixpoint the chain of b holds exactly the blocks on every path from the entry to b |
| Dominators.Dominators.IdomPass | src/optimization/Dominators.cpp:95-122 | one pass keeps the invariants; if it changes something the measure falls, if not the links are the dominator tree |
| Dominators.Dominators.CreateIdom | src/optimization/Dominators.cpp:84-124 | terminates, and the idom chains are exactly the dominator sets of the reachable blocks |
| DomTree.RunnerStops | src/optimization/Dominators.cpp:146-150 | the runner loop ends if and only if a reachable join is not entered from an unreachable block |
| LostBlock.RunnerLost | src/optimization/Dominators.cpp:141-154 | a generated function whose runner never reaches the immediate dominator of a join |
| DomTree.IdomOnPredChain | src/optimization/Dominators.cpp:146-150 | the idom of a join lies on the chain of each of its predecessors |
| DomTree.FrontierIsJoin | src/optimization/Dominators.cpp:144-144 | a block that some runner visits has at least two predecessors, so skipping the others loses nothing |
| DomTree.FrontierIsExact | src/optimization/Dominators.cpp:141-154 | y other than the entry is in DF(x) if and only if x dominates a predecessor of y and does not strictly dominate y; the entry is when it has two predecessors, x dominates one of them, and x is another block |
| Dominators.Dominators.AddRunner | src/optimization/Dominators.cpp:146-150 | adds the block to the frontiers of exactly the blocks on the predecessor's chain below the idom of the block |
| Dominators.Dominators.CreateDominanceFrontier | src/optimization/Dominators.cpp:141-154 | the frontier map is the relation that FrontierIsExact speaks of |
| Dominators.Dominators.CreateDomTreeSucc | src/optimization/Dominators.cpp:156-165 | children of b are exactly the other blocks whose idom is b |
| Dominators.Dominators.Run | src/optimization/Dominators.cpp:6-27 | numbering, dominator tree, frontiers and children of one function together |
| PhiSites.PhiInserter.CollectStores | src/optimization/Mem2Reg.cpp:36-55 | maps each variable to exactly the blocks that store it |
| PhiSites.PhiInserter.PlacePhis | src/optimization/Mem2Reg.cpp:59-76 | the sites of one variable are the least set that holds DF of its stores and is closed under DF; the worklist is as long as stores plus sites |
| PhiSites.PhiInserter.PlaceAtFrontier | src/optimization/Mem2Reg.cpp:63-74 | every frontier block of the current block gets one phi if it had none, and goes on the worklist |
| PhiSites.PhiInserter.PlaceVariable | src/optimization/Mem2Reg.cpp:59-76 | the blocks with a phi for the variable are its iterated frontier; other variables keep their phis |
| PhiSites.PhiInserter.GeneratePhi | src/optimization/Mem2Reg.cpp:33-77 | for every variable the blocks with a phi are the iterated frontier of its stores, with one phi each |
| Renaming.SimBody | src/optimization/Mem2Reg.cpp:91-115 | a renamed block simulates the original: the slot of a variable holds the value on top of its stack |
| Promotion.PhiPlacement | src/optimization/Mem2Reg.cpp:57-76 | without a phi for v in b, the value of v on entering b is the one leaving every predecessor |
| Promotion.SimEdge | src/optimization/Mem2Reg.cpp:117-130 | the simulation relation at the end of a block becomes the one at the start of each successor, phis included |
| Promotion.SsaPreservesMeaning | src/optimization/Mem2Reg.cpp:33-158 | every activation that returns before SSA construction returns the same value, memory and trace after it |
| Mem2Reg.Renamer.PushPhiValues | src/optimization/Mem2Reg.cpp:82-89 | the newest value of each variable with a phi is the phi |
| Mem2Reg.Renamer.RenameInstr | src/optimization/Mem2Reg.cpp:91-115 | a load's uses become the top of its stack and it is marked dead, a store's value is pushed; stops exactly at an empty stack |
| Mem2Reg.Renamer.RenameBlock | src/optimization/Mem2Reg.cpp:91-115 | all instructions of a block under the walk's invariant, or a load without a value |
| Mem2Reg.Renamer.AddPairs | src/optimization/Mem2Reg.cpp:117-130 | each phi of each successor gets one pair per edge with the newest value, others none; stops exactly at an empty stack |
| Mem2Reg.Renamer.PopValues | src/optimization/Mem2Reg.cpp:137-152 | the stacks are again what they were before the block |
| Mem2Reg.Renamer.EndBlock | src/optimization/Mem2Reg.cpp:137-157 | values popped and dead instructions erased, the subtree is complete |
| Mem2Reg.Renamer.ReName | src/optimization/Mem2Reg.cpp:79-158 | renames exactly the blocks that bb dominates, once each, depth first and after their idom, and leaves every stack as it found it; stops if and only if a block on the way uses a variable without a value that an earlier block defines |
| RenameOrder.HarmlessNoClash | src/optimization/Mem2Reg.cpp:98-135 | a function in which uses without a value lie above all definitions of the variable stops no depth-first walk |
| RenameOrder.HarmfulClash | src/optimization/Mem2Reg.cpp:98-135 | on every other function some depth-first walk stops: the subtree with the definition first, the use after it |
| RenameOrder.HarmlessIsExact | src/optimization/Mem2Reg.cpp:98-135 | both together: no order of children stops the walk if and only if the function is harmless |
| RenameTree.EmptyAtEnd | src/optimization/Mem2Reg.cpp:123-125 | at the end of a block a stack is empty exactly when no block above defines the variable and one renamed before does |
| RenameTree.UnderStep | src/optimization/Mem2Reg.cpp:132-135 | the subtrees of the children are disjoint and make up the subtree of their parent |
| RenameWalk.WalkEnds | src/optimization/Mem2Reg.cpp:79-179 | when every block has been left, the result is in SSA form; a block holds its substituted instructions, all but loads that were replaced and stores to variables, and after that its int and float allocas go |
| Mem2Reg.Renamer.RemoveAlloca | src/optimization/Mem2Reg.cpp:160-179 | an instruction stays if and only if it is no alloca of an int or a float, in the order it had |
| SsaPass.ConstructSsa | src/optimization/Mem2Reg.cpp:14-31 | on every function on which the dominator analysis ends, for any order of children: never stops when the function is harmless, stops exactly on a use without a value, and otherwise gives an SSA form whose runs are those of the input, in which no int or float alloca is left and every other alloca is, no reached block stores to a variable, and every other instruction but replaced loads is there |
| SsaPass.StoredFirstHarmless | src/optimization/Mem2Reg.cpp:98-100 | storing every variable in the entry block before its loads there makes a function harmless |
| SsaPass.PhisComplete | src/optimization/Mem2Reg.cpp:117-130 | then every phi ends with exactly one pair for each edge into its block |
| SsaForm.NoDanglingUse | src/optimization/Mem2Reg.cpp:154-157 | no surviving instruction names an erased load; a slot is named only by a load that had no value |
| SsaForm.NoDanglingPhi | src/optimization/Mem2Reg.cpp:117-130 | a phi operand survives and its definition dominates the end of the predecessor |
| SsaForm.DiamondDependsOnOrder | src/optimization/Mem2Reg.cpp:117-135 | on a function that stores a variable in one branch only, both orders of children are depth-first walks; one stops and the other does not |
| SsaForm.DiamondIsFine | src/optimization/Mem2Reg.cpp:14-31 | that function meets every precondition of the pass |
| DeadCode.SecondRoundKeepsAll | include/optimization/DeadCode.h:19-26 | in the swept function everything is marked, so a second round erases nothing |
| DeadCode.SweepPreservesMeaning | include/optimization/DeadCode.h:32-85 | every activation that returns still returns the same value, memory and trace after unmarked instructions are gone; for whole modules see SweptModuleMeans |
| DeadCode.KeptStep | include/optimization/DeadCode.h:86-100 | a kept instruction does the same in both runs |
| DeadCode.DroppedStep | include/optimization/DeadCode.h:86-100 | a dropped instruction changes nothing that is still read, pure calls included |
| DeadCode.Pass.MarkCritical | include/optimization/DeadCode.h:36-43 | marks exactly the stores, branches, returns and calls of functions that are not pure, all on the worklist |
| DeadCode.Pass.MarkOperands | include/optimization/DeadCode.h:52-64 | marks the definitions of all operands, and nothing that some closed set does without |
| DeadCode.Pass.Mark | include/optimization/DeadCode.h:32-51 | the marks are the least operand-closed set that holds the critical instructions: exactly the items from which a chain of reads leads to a store, a branch, a return or an impure call |
| DeadCode.Pass.Sweep | include/optimization/DeadCode.h:65-85 | keeps exactly what is marked, reports whether that changed anything, counts what it erased |
| DeadCode.Pass.Run | include/optimization/DeadCode.h:16-28 | at most two rounds; what is left is exactly what leads on to a store, a branch, a return or an impure call, whatever else is left is read by another item that is left, and erased plus left is the original size |
| DeadCode.MarkingIs | include/optimization/DeadCode.h:32-64 | a least marking is exactly the items that lead on, by one reading another, to one with an effect |
| DeadCode.LeftIsNeeded | include/optimization/DeadCode.h:65-93 | after the sweep everything leads on within what is left, and all but effects are read by something else |
| FuncInfo.Analysis.TrivialMark | include/optimization/FuncInfo.h:46-67 | pure unless a declaration, main, a pointer parameter, or a load or store through something that is no alloca |
| FuncInfo.Analysis.Process | include/optimization/FuncInfo.h:69-81 | exactly the callers that were still pure become impure and go on the worklist, once each |
| FuncInfo.Analysis.Spread | include/optimization/FuncInfo.h:25-29 | in the end all callers of impure functions are impure, and each impure function was on the worklist once |
| FuncInfo.Analysis.Run | include/optimization/FuncInfo.h:18-31 | a function is impure if and only if a chain of calls leads from it to a function that is impure by itself |
| FuncInfo.ImpureInside | include/optimization/FuncInfo.h:69-81 | a set that holds the trivially impure functions and all callers holds every impure function |
| FuncInfo.LocalIsOwn | include/optimization/FuncInfo.h:112-127 | the addresses found local are exactly those from which a way leads back to an alloca, through getelementptr and first operands of phis |
| FuncInfo.TrivialIs | include/optimization/FuncInfo.h:46-67 | impure by itself if and only if a declaration, main, with an array parameter, or with a load or store through an address that leads back to no alloca |
| FuncInfo.CallsIs | include/optimization/FuncInfo.h:69-81 | a function calls exactly what its call instructions name |
| FuncInfo.SimpleIsPure | include/optimization/FuncInfo.h:46-81 | a defined function with number parameters that loads and stores only its own variables and calls nothing is pure |
| Purity.TwinStep | include/optimization/FuncInfo.h:84-127 | an instruction of a function whose addresses are all local does the same in two worlds and touches only local arrays |
| Purity.PureCall | include/optimization/FuncInfo.h:46-127 | a call of a function with local addresses that calls only such functions, when it returns, leaves memory and trace as they were and returns the same value in every world |
| Purity.PlainIsLocal | include/optimization/FuncInfo.h:84-127 | a function that the analysis finds free of side effects, and in which no phi takes part in an address, has local addresses only |
| Purity.AnalysisIsPureSet | include/optimization/FuncInfo.h:18-31 | what the analysis leaves pure, when its addresses are local, is closed under calls, free of side effects, and what PureCall speaks of |
| Purity.PureCallsMayGo | include/optimization/DeadCode.h:88-92 | so dead-code removal may drop calls of pure functions |
| Purity.PhiAddressMisjudged | include/optimization/FuncInfo.h:112-127 | a function with an address computed by a phi that passes for free of side effects and changes a global variable |
| DefUse.Value.SetOperand | src/lightir/User.cpp:15-20 | the slot gets the value, the value gets the use, nothing else changes |
| DefUse.Value.AddOperand | src/lightir/User.cpp:22-26 | a new last slot with its use |
| DefUse.Value.RemoveUse | src/lightir/Value.cpp:23-26 | all uses by the user go, the others keep their order |
| DefUse.ReplaceKeepsConsistent | src/lightir/Value.cpp:14-40 | slot i of u holds v exactly when Use(u, i) is once in v's list, before and after replacing any selection of uses |
| DefUse.ReplaceAllUseWith | src/lightir/Value.cpp:14-21 | the whole graph afterwards: every slot that held the value holds the new one, its list is empty, the rest is unchanged |
| DefUse.ReplaceUseWithWhen | src/lightir/Value.cpp:28-40 | the whole graph afterwards: exactly the selected slots and uses move |
| DefUse.WithOperandConsistent | src/lightir/User.cpp:15-26 | setting or adding an operand keeps slots and use lists in step if and only if the slot was empty or is new |
| DefUse.FillOperand | src/lightir/User.cpp:15-20 | set_operand on any slot: the whole graph afterwards, consistent if and only if the slot was empty |
| DefUse.AppendOperand | src/lightir/User.cpp:22-26 | add_operand on a consistent graph, as for another phi pair |
| DefUse.EraseKeepsConsistent | src/lightir/User.cpp:30-34 | erasing a value that nothing uses leaves a consistent graph |
| DefUse.RemoveUseOfOps | src/lightir/User.cpp:30-34 | every list loses exactly the uses by this user |
| GvnExpr.EquivIsNorm | src/optimization/GVN.cpp:1069-1095 | on the expressions of one walk, expression equality is an equivalence: equality up to which pure call was made |
| GvnExpr.EquivSameValue | include/optimization/GVN.h:55-291 | equal expressions have equal values |
| GvnTransfer.ValueExprSound | src/optimization/GVN.cpp:412-722 | after an instruction its value expression, folded or not, has the value of its register |
| GvnTransfer.TransferOk | src/optimization/GVN.cpp:727-913 | every available value stays in exactly one class and no two classes have equal expressions |
| GvnTransfer.TransferSound | src/optimization/GVN.cpp:727-913 | members and leader of every class keep the value of the class expression |
| Gvn.AllLeads | src/optimization/GVN.cpp:727-913 | the leader of a value never changes between its definition and the end of the block |
| Gvn.SameBody | src/optimization/GVN.cpp:990-1018 | a block with its operands replaced by leaders runs as before, and its partition is sound at its end |
| Gvn.MembersAgree | src/optimization/GVN.cpp:727-913 | at every point of every run all members of a class of the partition for that point have one value, that of the leader |
| Gvn.StoredAgree | src/optimization/GVN.cpp:254-386 | when control is at the end of a block, all members of a class of the partition stored for it have the value of its leader |
| GvnEffect.ConstantsLead | src/optimization/GVN.cpp:855-860 | in every stored partition a class of a constant is led by the constant, and every other class by a member |
| GvnEffect.ClassesHold | src/optimization/GVN.cpp:727-740 | the registers in stored classes are those of numbered instructions, none of a call of a void function |
| GvnEffect.OperandsLed | src/optimization/GVN.cpp:990-1018 | each operand becomes the leader of the class that the stored partition of the block has it in, and operands in no class stay |
| GvnEffect.ConstantsPropagate | src/optimization/GVN.cpp:412-560 | in a function without joins no instruction after an operation on constants reads its register any more; where one did, the value stands |
| GvnEffect.RepeatsMerge | src/optimization/GVN.cpp:727-913 | two instructions with the same operation on operands in the same classes have registers in one class, so that uses of both become uses of one operand; calls when they are of one pure function |
| Gvn.GvnPreservesMeaning | src/optimization/GVN.cpp:990-1018 | in a function without joins, replacing members by leaders preserves every run that returns; for whole modules see NumberedModuleMeans |
| GvnPass.InsertFresh | include/optimization/GVN.h:325-334 | a class with a fresh number is never lost in the ordered set |
| GvnPass.Pass.TransferFunction | src/optimization/GVN.cpp:727-913 | the loop over the classes computes the transfer function, and classes of constants stay led by them; stops exactly where folding computes nothing, as for a zero divisor |
| GvnPass.Pass.GlobalsAndArgs | src/optimization/GVN.cpp:387-410 | one class for each global variable and argument, with fresh numbers |
| GvnPass.Pass.OnePass | src/optimization/GVN.cpp:276-384 | after one round every partition is what the transfer functions make of its block, and a round from there looks unchanged |
| GvnPass.Pass.DetectEquivalences | src/optimization/GVN.cpp:254-386 | terminates within two rounds with those partitions |
| GvnPass.Pass.ReplaceClass | src/optimization/GVN.cpp:993-1014 | members of one class, in any order, become the leader and other operands stay |
| GvnPass.Pass.ReplaceInBlock | src/optimization/GVN.cpp:990-1018 | all classes of a block one after the other |
| GvnPass.Pass.Run | src/optimization/GVN.cpp:1035-1063 | the function that GvnPreservesMeaning speaks of, in which constants have been propagated, unless folding computes nothing |
| GvnJoin.Joiner.Intersect | src/optimization/GVN.cpp:179-252 | the common members, under a fresh number when there are any; keeps the expression when both agree, else a phi of both |
| GvnJoin.MeetAll | src/optimization/GVN.cpp:164-176 | once all pairs of classes are done, two values share a class exactly when they share one in both inputs, and disjoint inputs give disjoint classes |
| GvnJoin.Joiner.Join | src/optimization/GVN.cpp:144-177 | top is neutral, an empty input gives the empty partition, otherwise the meet, with distinct numbers so that no class is lost |
| CodegenCfg.CondBranchLists | src/lightir/Instruction.cpp:219-226 | a conditional branch from an open block, whatever its targets, keeps predecessor and successor lists in step with the instructions |
| CodegenCfg.BranchLists | src/lightir/Instruction.cpp:228-233 | so does an unconditional one |
| CodegenCfg.XCfg | src/cminusfc/cminusf_builder.cpp:963-1160 | code for an expression leaves its last block open and every other new block ended |
| CodegenCfg.SCfg | src/cminusfc/cminusf_builder.cpp:859-961 | code for a statement leaves no new block but the last open, and old blocks and their predecessors as they were |
| CodegenCfg.FunCfg | src/cminusfc/cminusf_builder.cpp:786-855 | every block of a generated function has one terminator and it is last, lists mirror branches, the entry has no predecessor, no block more than two, and the scope is restored |
| CodegenExpr.ArithAgrees | src/cminusfc/cminusf_builder.cpp:1091-1141 | on promoted operands the chosen instruction computes what the operator means, for any mix of ints and floats |
| CodegenExpr.DivisionIs | src/cminusfc/cminusf_builder.cpp:1133-1137 | division of ints, of the source and of sdiv, is the one quotient whose remainder is smaller than the divisor and has the sign of the dividend; none for a zero divisor |
| CodegenExpr.ComparisonIs | src/cminusfc/cminusf_builder.cpp:1046-1086 | the instruction for a comparison gives 1 when it holds and 0 when not, for ints and floats |
| CodegenExpr.ConversionIs | src/cminusfc/cminusf_builder.cpp:1028-1033 | a float becomes the int it is cut off to, when that has 32 bits |
| IR.TruncDivIs | src/optimization/GVN.cpp:34-34 | so does folding: a quotient is the one that division computes if and only if its remainder is as for DivisionIs |
| CodegenExpr.CompareAgrees | src/cminusfc/cminusf_builder.cpp:1038-1089 | so does the chosen comparison |
| CodegenExpr.SimConv | src/cminusfc/cminusf_builder.cpp:1028-1033 | a value of the one type becomes the same number of the other, or what is in front of its point |
| CodegenExpr.ThenPromote | src/cminusfc/cminusf_builder.cpp:714-728 | after promotion both operands hold their numbers as values of one type, and no variable has changed |
| CodegenExpr.CheckFails | src/cminusfc/cminusf_builder.cpp:985-1002 | a negative index calls the handler, and when that returns the function returns its default |
| CodegenExpr.SimIndex | src/cminusfc/cminusf_builder.cpp:982-1012 | code for an index computes the address the source means, or exits as the source does |
| CodegenExpr.SimX | src/cminusfc/cminusf_builder.cpp:963-1160 | code for an expression computes its value, with all variables and memory as in the source, and the value has the static type |
| CodegenStmt.SimDecl | src/cminusfc/cminusf_builder.cpp:758-784 | a declaration makes a new empty variable, unless the innermost scope has the name |
| StaticCheck.XFine | src/cminusfc/cminusf_builder.cpp:963-1160 | code for an expression is generated if and only if it passes a check that knows only the syntax tree and what names are declared as, and its static type is the one the check gives |
| StaticCheck.SFine | src/cminusfc/cminusf_builder.cpp:859-961 | so for statements; a block is ended by exactly the statements that control never gets past |
| StaticCheck.FunctionIsFine | src/cminusfc/cminusf_builder.cpp:786-855 | so for functions |
| CodegenArrays.FunctionArrays | src/cminusfc/cminusf_builder.cpp:773-783 | the allocas of arrays in a generated function are exactly those of the array declarations that control may get to, with their sizes |
| SlotTypes.SlotsKeepTypes | src/cminusfc/cminusf_builder.cpp:758-771 | at every point of every run of generated code a slot reserved for ints holds an int or nothing, and so for floats and pointers |
| CodegenStmt.SimLoop | src/cminusfc/cminusf_builder.cpp:923-944 | a loop from its test on, for any number of rounds |
| CodegenStmt.SimS | src/cminusfc/cminusf_builder.cpp:859-961 | a statement that falls through or returns in the source does so in the generated code, in the same state |
| CodegenStmt.SimReturn | src/cminusfc/cminusf_builder.cpp:946-961 | a return statement returns the value as a number of the type the function returns |
| CodegenStmt.SimParams | src/cminusfc/cminusf_builder.cpp:821-843 | each parameter gets a slot that holds its argument |
| CodegenStmt.CodegenPreservesMeaning | src/cminusfc/cminusf_builder.cpp:786-1160 | when the source of a function returns, the generated function returns the same value, memory and trace |
| CodegenStmt.CodegenPreservesDivergence | src/cminusfc/cminusf_builder.cpp:786-1160 | when the source of a function never ends, neither does the generated function |
| Program.RefinedRun | src/cminusfc/cminusf_builder.cpp:1143-1160 | a run that returns, returns the same when its calls answer more |
| Program.ProgramPreservesMeaning | src/cminusfc/cminusf_builder.cpp:738-749 | if the code of each function implements it, every call in the program that returns, through any depth of calls and recursion, returns the same |
| Toplevel.VisitTop | src/cminusfc/cminusf_builder.cpp:758-855 | a global variable gets a name and cells, a function its name, number and code; a name that is taken keeps its binding |
| Toplevel.VisitProgram | src/cminusfc/cminusf_builder.cpp:738-749 | the declarations in order, from the four built-in functions on; a file is compiled if and only if it passes the static check |
| Toplevel.CompiledIfFine | src/cminusfc/cminusf_builder.cpp:738-1160 | so code for all of it is generated exactly when names are declared before use and used as what they are, numbers stand where numbers are wanted, and argument counts match |
| Toplevel.DeclaredName | src/cminusfc/cminusf_builder.cpp:758-855 | a declaration of a new name binds it: a global variable to its number and kind, a function to its number after the four built-in ones, its parameters and what it returns |
| Toplevel.DeclaredCells | src/cminusfc/cminusf_builder.cpp:758-784 | memory starts with one zero for each global number and n zeroes for a global array of size n, of the declared type, and nothing else |
| Toplevel.StartMemIs | src/cminusfc/cminusf_builder.cpp:758-784 | memory starts with exactly the cells of the global variables, each zero of its type |
| Toplevel.TopInStep | src/cminusfc/cminusf_builder.cpp:758-855 | after each declaration the names of source and module stand for the same, and the code of each function implements it |
| Toplevel.CompilerIsCorrect | src/cminusfc/cminusf_builder.cpp:738-1160 | in the module generated for a source file every call that returns in the source returns the same value, memory and trace, from zeroed global variables |
| CodegenDefs.EmitSound | src/cminusfc/cminusf_builder.cpp:963-1160 | an appended instruction that reads what is available leaves every register set once and every use dominated |
| CodegenDefs.SDefs | src/cminusfc/cminusf_builder.cpp:859-961 | so does code for a statement, and control ends in a block that the one before dominates |
| CodegenDefs.DefsDominateUses | src/cminusfc/cminusf_builder.cpp:786-1160 | every register that an instruction reads is set earlier in its block or in a block that dominates it |
| Pipeline.GeneratedIsOk | src/optimization/Mem2Reg.cpp:14-31 | generated code meets what SSA construction asks for if and only if the dominator analysis ends on it and no number variable is indexed |
| PlainCode.AfterPlain | include/optimization/FuncInfo.h:112-127 | in the SSA form of generated code every register is set once, and without array parameters no phi takes part in an address |
| TypedSsa.AfterTyped | src/optimization/Mem2Reg.cpp:79-158 | the SSA form of typed code is typed, with the type of its variable for each phi |
| Pipeline.MadeIsTyped | src/lightir/Instruction.cpp:285-361 | operands of generated code in SSA form have the types that the constructors of instructions ask for, given that calls pass arrays for arrays and numbers for numbers |
| Pipeline.CompiledPureCall | include/optimization/FuncInfo.h:18-127 | in a module of compiled functions a call of a function that the analysis calls pure, when it returns, leaves every cell and the trace as they were and returns the same value in every world |
| Typing.CallTame | src/lightir/Instruction.cpp:164-174 | a call of typed code that returns, returns a number, leaves memory with numbers only, and changes no cell but those of global variables and of arrays passed to it |
| GvnTypes.NumberedTyped | src/optimization/GVN.cpp:990-1018 | replacing members by leaders keeps types |
| Modules.ModulePreserved | include/optimization/PassManager.hpp:27-35 | a pass that preserves the runs of each function, when all calls are typed, preserves every call of the module, through any depth of calls and recursion |
| Modules.SweptModuleMeans | include/optimization/DeadCode.h:16-28 | after dead-code removal in all functions of a typed module every call that returned returns the same |
| Modules.NumberedModuleMeans | src/optimization/GVN.cpp:1034-1060 | after value numbering in functions without joins of a typed module every call that returned returns the same |
| Optimiser.CallFuel | src/cminusfc/cminusfc.cpp:84-95 | a call that returns when each run may take as long as it likes, returns within one bound for all runs in it |
| Optimiser.OptimisedIsCorrect | src/optimization/GVN.cpp:1021-1062 | source, generated code, SSA form, dead-code removal, value numbering, dead-code removal: every call that returns in the source returns the same value, memory and trace in the module at the end |
| Pipeline.SsaImplements | src/cminusfc/cminusfc.cpp:84-95 | the SSA form of generated code implements the source function |
| Pipeline.Compile | src/cminusfc/cminusfc.cpp:84-95 | code generation and SSA construction one after the other: the result implements the source and is the SSA form that OptimisedIsCorrect takes up, and it is there whenever the function is harmless |
| Codegen.FindAfterPush | include/cminusf_builder.hpp:24-41 | a name that was pushed is found, unless the innermost map had it; other names are found as before |
| CminusfBuilder.ScopeStack.Enter | include/cminusf_builder.hpp:17-17 | a new empty innermost map |
| CminusfBuilder.ScopeStack.Exit | include/cminusf_builder.hpp:20-20 | the innermost map goes |
| CminusfBuilder.ScopeStack.Push | include/cminusf_builder.hpp:27-30 | binds a name that is new in the innermost map, and says whether it was |
| CminusfBuilder.ScopeStack.Lookup | include/cminusf_builder.hpp:32-41 | the binding in the innermost map that has the name |
| CminusfBuilder.Builder.Convert | src/cminusfc/cminusf_builder.cpp:1028-1033 | the conversion that SimConv speaks of, and none when the types agree |
| CminusfBuilder.Builder.Promote | src/cminusfc/cminusf_builder.cpp:714-728 | the promotion that ThenPromote speaks of, and whether both were ints |
| CminusfBuilder.Builder.CheckIndex | src/cminusfc/cminusf_builder.cpp:985-1004 | the index as an int, and the test and exit block that CheckFails speaks of |
| CminusfBuilder.Builder.VisitVarName | src/cminusfc/cminusf_builder.cpp:963-981 | address or value, by the flag, which is down afterwards |
| CminusfBuilder.Builder.VisitVarIndex | src/cminusfc/cminusf_builder.cpp:982-1019 | address or value of an element, by the flag as it was before the index was visited |
| CminusfBuilder.Builder.VisitAssignName | src/cminusfc/cminusf_builder.cpp:1022-1036 | right-hand side, address, conversion, store, in this order |
| CminusfBuilder.Builder.VisitAssignIndex | src/cminusfc/cminusf_builder.cpp:1022-1036 | the same for an element |
| CminusfBuilder.Builder.VisitOperands | src/cminusfc/cminusf_builder.cpp:1041-1046 | left before right, then promoted |
| CminusfBuilder.Builder.VisitArgs | src/cminusfc/cminusf_builder.cpp:1143-1160 | arguments in order, each converted to its parameter before the next is visited |
| CminusfBuilder.Builder.VisitX | src/cminusfc/cminusf_builder.cpp:963-1160 | the visitor leaves the code, the value and the type that SimX speaks of, and succeeds exactly on expressions that pass the static check |
| CminusfBuilder.Builder.VisitDecls | src/cminusfc/cminusf_builder.cpp:867-869 | allocas and names of a list of declarations, at the same scope depth |
| CminusfBuilder.Builder.VisitWhile | src/cminusfc/cminusf_builder.cpp:923-944 | the loop that SimLoop speaks of |
| CminusfBuilder.Builder.VisitCompound | src/cminusfc/cminusf_builder.cpp:859-880 | its own scope unless the function's scope was entered just before; statements after a terminator are not visited; scope depth restored |
| CminusfBuilder.Builder.VisitStmt | src/cminusfc/cminusf_builder.cpp:859-961 | the visitor leaves the code that SimS speaks of, with flags down and scope depth restored, and succeeds exactly on statements that pass the static check |
| CminusfBuilder.Builder.VisitFunDecl | src/cminusfc/cminusf_builder.cpp:786-855 | the visitor binds the function's own name and builds the function that FunCfg and CodegenPreservesMeaning speak of, exactly when the function passes the static check: a well-formed graph, every block ended, the scope as before but for that name |

## Left out

- Rounding, infinities and not-a-number: floats are real numbers. A division of floats by zero and a
  conversion to an int that does not fit have no meaning; where folding meets one, the model of value
  numbering stops, as it does for an int division by zero.
- Static types: where an operand is no number although one is wanted (an array, the result of a void
  function), and for a value returned from a void function, the model of code generation stops; the code
  goes on and builds instructions that are ill-typed, or fails an assertion. `StaticCheck` says when.
- CodegenExpr.SimX: a source that reads a number of the wrong type (from a cell or a callee that breaks its
  declaration) has no meaning, nor has a call with other arguments than declared.
- Element types of arrays are part of names but not of the alloca and the getelementptr instructions.
- CminusfBuilder.Builder.CheckIndex: the two blocks are made after the conversion of the index, where the
  code makes them before; the generated code is the same.
- Calls: an activation meets other functions through an oracle. `Program` and `Purity` build the oracle of
  a module; the other theorems quantify over it and state what they ask of it.
- Program.ProgramPreservesMeaning: speaks of calls that return, at any depth of nesting; a program that
  never ends because its calls never stop nesting is not covered.
- DeadCode.SweepPreservesMeaning: one activation; asks that a call gets at no address of the caller's frame
  that it is not given, and that calls of pure functions leave the world alone. `Modules` proves both of
  typed modules.
- Purity.PureCall: asks that addresses are local; PhiAddressMisjudged shows a function on which the analysis
  is wrong without it.
- Gvn.GvnPreservesMeaning: functions in which every block but the entry has one predecessor, listed before
  it, and no phis; partitions across joins are compared by their first class only, so no claim is made
  there, and `Optimiser.OptimisedIsCorrect` leaves functions with joins as they are in that step. Element
  types of getelementptr expressions follow from the base and are not part of the expression.
- Pipeline.MadeIsTyped: that a call passes arrays for arrays and numbers for numbers is a premise, because the
  code generator passes any address on as it is. Ints and floats are not told apart by the types.
- Optimiser.OptimisedIsCorrect: asks of functions outside the module that they change only what they are
  given and return numbers. Dead-code removal is stated for one round, which is all it takes
  (SecondRoundKeepsAll).
- GvnJoin.Joiner.Join: the meet is stated of members; nothing is claimed of the values of classes at joins.
- `valuePhiFunc`, `getVN` and the phi copies of src/optimization/GVN.cpp:304-377.
- SsaPass.ConstructSsa: the entry has no predecessor, definitions dominate uses, and no join that can be
  reached is entered from a block that cannot, because the dominator analysis does not end then.
- Reading a variable that was never written has no meaning, so SSA construction need not preserve it; a
  load that no store reaches stays in the renamed function, as in the code.
- The stacks `var_val_stack` are those of one function; the original keeps the map across functions.
- Phis are kept in a list of their own in each block, ahead of the other instructions.
- CodegenStmt.CodegenPreservesMeaning: array declarations carry a site that differs from those of the
  declarations in whose scope they are; it stands for the identity of the declaration. `CodegenDefs` asks
  that no two array declarations of a function share one.
- `DefUse.ReplaceAllUseWith` and `DefUse.ReplaceUseWithWhen` on the value itself: the list grows while it
  is walked.
- `User::remove_operands`, which does not renumber later uses, and `Dominators::create_doms`, which
  nothing calls.
- Sharing of class objects between stored and working partitions: partitions are values here.
- Parsing, printing, naming, logging, JSON dumps, interning of types and constants, the driver, `io.c`.
