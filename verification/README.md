# Verification of the Mini C compiler's lowering, allocation and layout

This project models the passes of the Mini C compiler that build or rewrite
instruction lists, and proves that they preserve meaning.

* **Lowering** (`Source`, `IR`, `Lowering`, `ExprCorrectness`, `StmtCorrectness`,
  `StmtRuns`, `Blocks`, `Targets`, `Functions`, `ReturnCount`, `Divergence`, `Limits`,
  `WhileContinue`).
  The source fragment has a fuelled big-step semantics, the block listing a small-step
  one, and a simulation connects them for expressions, statements and functions, runs
  that do not end included.
* **The code generator** (`Labels`, `Factory`, `Codegen`, `StmtCodegen`, `Slots`,
  `FunctionFrame`).  A factory
  object with its id counter, label table, symbol table and target stacks, and the
  methods that emit into it; each is proved to emit what `Lowering` specifies.  Every
  slot that the code names is allocated and has a place in the frame.
* **The expression parser** (`Grammar`, `Parser`).  A grammar with unique trees, and
  the precedence-climbing parser, proved sound, complete and deterministic against it.
* **Register allocation** (`Registers`, `LiveRanges`, `LinearScan`, `RegMachine`,
  `RegisterAllocation`, `ReturnedNumber`, `EarlyReturn`).  The linear scan with its pools, non-interference up to
  aliasing, the exact condition for success, and preservation of meaning for
  instruction sets with any semantics.
* **The legalizer** (`MachineIR`, `Expansions`, `Legalizer`, `LegalizedRuns`).  The
  rewriting walk terminates, leaves only legal instructions and preserves the meaning of
  blocks and of whole runs.
* **Frame and addresses** (`FrameLayout`, `FlatStack`, `TypeLayout`, `Gep`).  Bit-mask
  alignment, slot layout, flat memory, type layout and element addresses.

`Words` holds the fixed-width arithmetic they share.  `dafny verify dfyconfig.toml`
checks the whole project.

## Reading guide

A condition test works on `Tested(f)`, the code of an expression after its compare was
inverted in place.  `Supported` names the statements that lowering gets right; the
modules `Limits` and `WhileContinue` show for each exclusion what goes wrong without it.
A `While` says whether it keeps its continues (`own`): all whiles of C do, those that
lowering makes of them do not.  `Ready`, `Go`, `Ran` and `Arrived` state where a run
starts and ends, which variables agree there, and that nothing older was overwritten;
`Follows` adds the runs that do not end.  The machine of `IR` forgets all values at a
jump back, as that of `RegMachine` does: lowered code carries none around a loop.

Places where the code does not do what its users would expect, each stated as a result:

* a condition that is an assignment of a comparison stores the negated value
  (`Limits.TestableIsExact`, `Limits.NegationIsStored`);
* `continue` in a `while` goes to the increment block of an outer `for`
  (`WhileContinue.WhileContinueExactly`), since only `for` pushes an increment target,
  and without one it reads an empty stack (`WhileContinue.GeneratesExactly`);
* a void function that contains a return but ends without one runs past its end
  (`Functions.VoidEndsAtReturn`, `Limits.FallsOffItsEnd`);
* a shadowing declaration changes the outer variable (`Limits.ShadowingIsExact`);
* compound assignments group to the left, and `<=` and `>=` bind like `==`, not like `<`
  (`Grammar.GroupsLikeC`);
* a return of an immediate gives the return register to the virtual register with that
  number, which may be a parameter (`RegisterAllocation.ParametersStayExactly`);
* a value returned outside the last block is not in the return register
  (`RegisterAllocation.OnlyClaimedReturn`, `EarlyReturn.EarlyReturnLosesValue`);
* a zero extension behind a load is merged without looking at its operand or width
  (`Expansions.MergeIsExact`);
* the fresh-register counter can hand out a used register when it is behind
  (`Legalizer.FreshExactly`), although its comment promises the one after the highest;
* the slot of the link register, inserted after operands have got their positions, can
  lie on a local (`FrameLayout.LateSlotIsApartExactly`);
* a constant negative index on a global or a pointer is folded in unsigned 32 bits
  (`Gep.FoldingIsExact`).

## Model

| member | source | states |
|---|---|---|
| ExprCorrectness.ExprRuns | frontend/ast/AST.cpp:907-1251 | running the code of any expression from a state that holds its variables reaches the code behind it; the returned operand reads as the source value, the variables hold the source values, and no value id below the id counter at entry, and no slot below it that belongs to no variable, was changed |
| ExprCorrectness.ConditionRuns | frontend/ast/AST.cpp:88-98 | the code of a condition and its branch goes to the target exactly when the source value is zero, whether a compare was inverted in place or a compare with zero was added |
| ExprCorrectness.TestedRuns | frontend/ast/AST.cpp:91-93 | after the in-place inversion a compare holds the negated value, any other operand the value itself; side effects are those of the source |
| ExprCorrectness.LogicalAndRuns | frontend/ast/AST.cpp:1006-1074 | the result slot of `&&` ends as 0 or 1 and the right side runs exactly when the left is not zero (section 6.5.13 of ISO/IEC 9899:2011) |
| ExprCorrectness.NotRuns | frontend/ast/AST.cpp:929-968 | `!` leaves 1 for zero and 0 for everything else, with both forms of the test |
| ExprCorrectness.TernaryRuns | frontend/ast/AST.cpp:1196-1247 | exactly one arm of `?:` runs and the result slot, read as an operand, holds its value |
| ExprCorrectness.AssignRuns | frontend/ast/AST.cpp:1076-1089 | an assignment evaluates its right side first and then updates exactly its variable |
| ExprCorrectness.OpAssignRuns | frontend/ast/AST.cpp:1091-1128 | a compound assignment evaluates the right side first, then reads, computes and stores its variable |
| ExprCorrectness.PairRuns | frontend/ast/AST.cpp:1130-1150 | both operands of a binary operator are evaluated left to right, and after the swap and the move of constants the two operands read as the two values, exchanged only if the operator commutes |
| ExprCorrectness.BinaryRuns | frontend/ast/AST.cpp:1130-1174 | a binary operator computes the source value from the operands as they were arranged |
| ExprCorrectness.CompareRuns | frontend/ast/AST.cpp:1175-1193 | a comparison leaves 1 or 0 in its compare instruction |
| ExprCorrectness.PostRuns | frontend/ast/AST.cpp:979-995 | `x++` and `x--` yield the value before the change and store the changed one |
| ExprCorrectness.MinusRuns | frontend/ast/AST.cpp:969-978 | unary minus is the wrapped negation, both for folded literals and for the subtraction from zero |
| ExprCorrectness.BinValueCommutes | frontend/ast/AST.cpp:1137-1150 | exchanging the operands of ADD, MUL or AND does not change the value, for all 32-bit operands, with `&` computed bit by bit |
| ExprCorrectness.LowerCompares | middle_end/IR/IRFactory.hpp:239-248 | all compare instructions in the code of an expression carry ids handed out while it was lowered, which is why inverting one by its id cannot touch older code |
| IR.InvertNegates | middle_end/IR/Instructions.cpp:100-123 | the inverted relation is the negation for all operands, and inverting twice changes nothing |
| StmtRuns.StatementRuns | frontend/ast/AST.cpp:56-314 | for every supported statement, start state and fuel: if the source run ends normally, by break, by continue or by return, the code reaches the instruction behind it, the top break target, the top increment block, or the exit with the same value, and every variable in scope agrees; if it needs more fuel, the machine takes at least as many steps as there was fuel; the machine forgets all values at a jump back |
| StmtRuns.IfRuns | frontend/ast/AST.cpp:56-116 | an `if` without else behaves as its source, including bodies that leave by break, continue or return |
| StmtRuns.IfElseRuns | frontend/ast/AST.cpp:56-116 | an `if` with else runs exactly one branch and joins behind both |
| StmtRuns.WhileLoopRuns | frontend/ast/AST.cpp:191-233 | every number of iterations of a `while` is matched by jumps back to its header, so one that does not end keeps the machine running; a break leaves behind the loop, and a continue that is passed on goes to the top increment target |
| StmtRuns.ForLoopRuns | frontend/ast/AST.cpp:235-287 | every iteration of a `for` runs body, increment block and header in turn; a continue in the body goes to the increment block |
| StmtRuns.SwitchRuns | frontend/ast/AST.cpp:118-189 | a `switch` evaluates its value once, enters the body of the first matching case, falls through into later bodies and the default until a break, and goes to the default when nothing matches (section 6.8.4.2 of ISO/IEC 9899:2011) |
| StmtRuns.TestsRun | frontend/ast/AST.cpp:154-166 | the chain of compares branches to the block computed for the first equal constant and falls out of the chain if there is none |
| StmtRuns.FindBody | frontend/ast/AST.cpp:146-180 | the block that an entry of the chain branches to is where the code of the matching case, or of the next case with statements, begins |
| StmtRuns.CasesRun | frontend/ast/AST.cpp:170-184 | from the label of any body, the bodies run in order into the default |
| StmtRuns.ReturnRuns | frontend/ast/AST.cpp:299-314 | a return stores to the merge slot and jumps to null when returns are merged, and stops with the value otherwise |
| StmtRuns.JumpRuns | frontend/ast/AST.cpp:449-456 | break and continue jump to the last entries of the two target stacks |
| StmtRuns.CompoundRuns | frontend/ast/AST.cpp:289-293 | a block runs its statements in order; leaving it restores the variables outside |
| StmtRuns.DeclRuns | frontend/ast/AST.cpp:531-568 | a declaration gets a slot of its own and its initial value |
| StmtCorrectness.StmtSymbols | middle_end/IR/IRFactory.hpp:326-332 | lowering a statement keeps the slots of all variables in scope, and all slots are below the id counter |
| Blocks.ExprBlocks | frontend/ast/AST.cpp:907-1251 | of all blocks, the code of an expression contains exactly those allocated for it, once each |
| Blocks.StmtBlocks | frontend/ast/AST.cpp:56-314 | of all blocks, the code of a statement contains exactly those allocated for it, once each |
| Targets.ExprTargets | frontend/ast/AST.cpp:907-1251 | every branch and jump in the code of an expression goes to a block allocated for it |
| Targets.StmtTargets | frontend/ast/AST.cpp:56-314 | every branch and jump in the code of a statement goes to a block allocated for it, to the top break or increment target if it contains such a statement, or to null if returns are merged |
| Functions.FunctionBlocks | frontend/ast/AST.cpp:416-446 | the finished listing of a function contains each of its blocks exactly once and no other block |
| Functions.FunctionWellFormed | frontend/ast/AST.cpp:427-441 | after patching no null jump is left, and every jump and branch target is a block inserted exactly once |
| Functions.PatchedReaches | frontend/ast/AST.cpp:436-441 | patching null jumps does not change any run of the machine that sends them to the return block |
| Functions.FunctionReturns | frontend/ast/AST.cpp:398-446 | calling the lowered function with the same arguments stops with the value of the return actually executed, with one return or several merged ones, from any initial registers and slots |
| Functions.VoidEndsAtReturn | frontend/ast/AST.cpp:443-444 | a void function that ends without a return stops at a return instruction if and only if it contains no return statement; otherwise it runs past its end |
| ReturnCount.ExitsAreReturns | frontend/ast/AST.cpp:299-314 | the code of a statement has as many returns, or jumps to the return block, as the statement has return statements |
| Divergence.MoreFuel | frontend/ast/AST.cpp:56-314 | what a source run comes to does not change with more fuel, so every run ends in one way, does something undefined, or goes on forever |
| Divergence.FunctionKeepsBusy | frontend/ast/AST.cpp:398-446 | a call whose source run needs more fuel keeps the lowered function running for at least that many steps |
| Divergence.RunsForeverExactly | frontend/ast/AST.cpp:398-446 | if nothing undefined happens, the lowered function runs forever if and only if the source does |
| Limits.FallsOffItsEnd | frontend/ast/AST.cpp:443-444 | a void function whose only return is under an if: called with 0 it reaches no return, but its end |
| IR.FindLabel | backend/IRtoLLIR.cpp:385-404 | when no label occurs twice, a jump lands on the block it names |
| Limits.TestableIsExact | frontend/ast/AST.cpp:91-93 | using an expression as a condition leaves the variables right if and only if it is not an assignment of a comparison |
| Limits.InvertedRuns | frontend/ast/AST.cpp:91-93 | an assignment of a comparison used as a condition stores the negated value |
| Limits.NegationIsStored | frontend/ast/AST.cpp:91-93 | x = a < b as a condition, for a below b: the source stores 1, the code 0 |
| WhileContinue.SameCode | frontend/ast/AST.cpp:191-233 | the code of a while does not depend on whose its continues are: it is that of a while that passes them on |
| WhileContinue.CodeRunsAsLowered | frontend/ast/AST.cpp:56-314 | the code of every statement, with continues anywhere in its whiles, does what the statement does when no while keeps its continues, runs that do not end included |
| WhileContinue.PassesOnExactly | frontend/ast/AST.cpp:191-233 | for every fuel, a while that passes continues on runs as the source while if no executed iteration ends by continue, and otherwise ends at the first one that does |
| WhileContinue.WhileContinueExactly | frontend/ast/AST.cpp:191-233 | the code of a while behaves as its source if no executed iteration ends by continue; otherwise it is at the jump to the increment block of the for around it when the first such iteration ends, with the variables of that moment, while the source goes on |
| WhileContinue.ContinueChangesResult | frontend/ast/AST.cpp:191-287 | a for around a while with a continue: the source returns 5, its code 1 |
| WhileContinue.GeneratesExactly | frontend/ast/AST.cpp:449-456 | the generator reads an empty target stack if and only if a break stands outside of all loops and switches, or a continue has no for around it |
| WhileContinue.LoneContinueReadsNothing | frontend/ast/AST.cpp:454-456 | int f() { while (1) { continue; } } reads the empty increment stack |
| Limits.LastCaseIsExact | frontend/ast/AST.cpp:146-166 | the loop over the cases reads only existing entries of the list of bodies if and only if the last case has statements |
| Limits.ShadowingIsExact | frontend/ast/AST.cpp:533-566 | behind any block that declares x again, started in any environment that holds x, the code has the variables right if and only if the inner x ends with the value of the outer one |
| Limits.ShadowedVariable | frontend/ast/AST.cpp:533-566 | the input where it goes wrong: the source returns 1, the code 2 |
| Labels.DecimalInjective | middle_end/IR/IRFactory.hpp:314-314 | different numbers have different decimal digits |
| Labels.NameInjective | middle_end/IR/IRFactory.hpp:312-319 | base name and number can be read back from a label, for base names that do not end in a digit |
| Labels.LabelsDiffer | middle_end/IR/IRFactory.hpp:312-319 | for every sequence of insertions with such base names, no two blocks get the same label |
| Labels.DigitsCollide | middle_end/IR/IRFactory.hpp:312-319 | with base names that end in digits two blocks can get the same label |
| Factory.IRFactory.constructor | middle_end/IR/IRFactory.hpp:284-289 | a new function starts with its entry block, no values and empty tables |
| Factory.IRFactory.Insert | middle_end/IR/BasicBlock.cpp:4-7 | the instruction is appended to the current block and nothing else changes |
| Factory.IRFactory.InsertSA | middle_end/IR/BasicBlock.cpp:9-24 | a stack allocation goes behind the earlier ones and before all other instructions of the entry block, so that ids ascend |
| Factory.IRFactory.CreateSA | middle_end/IR/IRFactory.hpp:188-196 | the allocation gets the next id |
| Factory.IRFactory.InsertBB | middle_end/IR/IRFactory.hpp:312-319 | the block becomes the current one, under a label that no other block has |
| Factory.IRFactory.ResolveName | backend/IRtoLLIR.cpp:385-391 | searching for a label by name finds the block that carries it |
| Factory.BaseIsFresh | middle_end/IR/IRFactory.hpp:312-319 | no base name the generator uses, the one made from the function name included, ends in a digit or makes the name of the entry block, whatever number follows |
| StmtCodegen.TargetsResolve | backend/IRtoLLIR.cpp:385-404 | every jump and branch of a finished function targets a block that was inserted, and no other block has its name |
| Factory.IRFactory.InvertRelation | middle_end/IR/Instructions.cpp:100-123 | exactly the compare with the given id is inverted, in whichever block it is |
| Factory.IRFactory.BranchUnless | frontend/ast/AST.cpp:90-98 | a compare is inverted in place, any other value compared with zero, and the branch appended |
| Factory.IRFactory.PatchJumps | frontend/ast/AST.cpp:436-441 | every jump without target, in every block, gets the return block |
| Factory.IRFactory.CreateBin | middle_end/IR/IRFactory.hpp:15-23 | a binary instruction gets the next id and is appended |
| Factory.IRFactory.CreateMOV | middle_end/IR/IRFactory.hpp:99-108 | a move gets the next id and is appended |
| Factory.IRFactory.CreateCMP | middle_end/IR/IRFactory.hpp:239-248 | a compare gets the next id and is appended |
| Factory.IRFactory.CreateLD | middle_end/IR/IRFactory.hpp:218-227 | a load gets the next id and is appended |
| Factory.IRFactory.PushBreak | middle_end/IR/IRFactory.hpp:354-356 | a break target is pushed |
| Factory.IRFactory.PopBreak | frontend/ast/AST.cpp:186-186 | the last break target is removed |
| Factory.IRFactory.PushIncrement | middle_end/IR/IRFactory.hpp:350-352 | an increment target is pushed |
| Factory.IRFactory.PopIncrement | frontend/ast/AST.cpp:277-277 | the last increment target is removed |
| Factory.IRFactory.AddToSymbolTable | middle_end/IR/IRFactory.hpp:326-328 | the name now stands for the new slot |
| Factory.InvertListing | middle_end/IR/Instructions.cpp:100-123 | inverting block by block is inverting the listing |
| Codegen.InvertEmitted | frontend/ast/AST.cpp:91-93 | inverting the compare an expression returned leaves alone all code emitted before it and since |
| Codegen.TestExpr | frontend/ast/AST.cpp:88-98 | a condition is generated, a compare is inverted wherever it stands, and exactly the lowered test is appended |
| Codegen.GenerateNot | frontend/ast/AST.cpp:929-968 | generating `!` appends exactly its lowered code, with its blocks and slot allocated after the operand |
| Codegen.GenerateLogicalAnd | frontend/ast/AST.cpp:1006-1074 | generating `&&` appends exactly its lowered code, with its four blocks and its slot allocated before the operands |
| Codegen.GenerateTernary | frontend/ast/AST.cpp:1196-1247 | generating `?:` appends exactly its lowered code, with the slot allocated between the two arms |
| Codegen.GenerateOperands | frontend/ast/AST.cpp:1130-1150 | operands are generated left to right, swapped and moved as specified |
| Codegen.GenerateBinary | frontend/ast/AST.cpp:1152-1174 | the operator is applied to the operands as arranged |
| Codegen.GenerateCompare | frontend/ast/AST.cpp:1175-1193 | the comparison is applied to the operands as arranged |
| Codegen.GeneratePost | frontend/ast/AST.cpp:979-995 | load, add or subtract, store, and the loaded value is returned |
| Codegen.GenerateAssign | frontend/ast/AST.cpp:1076-1089 | the right side is generated before the variable is looked up |
| Codegen.GenerateOpAssign | frontend/ast/AST.cpp:1091-1128 | the right side is generated before the variable is loaded |
| Codegen.GenerateMinus | frontend/ast/AST.cpp:969-978 | a literal is folded, anything else subtracted from zero |
| Codegen.GenerateExpr | frontend/ast/AST.cpp:907-1251 | generating any expression into the factory appends exactly its lowered code and allocations and returns its operand; if all slots named so far were allocated they still are, the operand included |
| StmtCodegen.GenerateIf | frontend/ast/AST.cpp:56-116 | generating an `if` appends its lowered code |
| StmtCodegen.GenerateIfElse | frontend/ast/AST.cpp:56-116 | generating an `if` with else appends its lowered code |
| StmtCodegen.GenerateWhile | frontend/ast/AST.cpp:191-233 | generating a `while` appends its lowered code and leaves the target stacks as they were |
| StmtCodegen.GenerateFor | frontend/ast/AST.cpp:235-287 | generating a `for` appends its lowered code and leaves both target stacks as they were |
| StmtCodegen.MakeBodies | frontend/ast/AST.cpp:146-150 | one block is allocated for every case that has statements |
| StmtCodegen.EmitTests | frontend/ast/AST.cpp:154-166 | the loop over the cases with its running index emits for each case a branch to its own body or, for an empty case, to the next body |
| StmtCodegen.GenerateBodies | frontend/ast/AST.cpp:170-184 | the bodies are inserted in order, each from the front of the remaining blocks, the default last |
| StmtCodegen.GenerateSwitch | frontend/ast/AST.cpp:118-189 | generating a `switch` appends its lowered code and leaves the target stacks as they were |
| StmtCodegen.GenerateReturn | frontend/ast/AST.cpp:299-314 | generating a return appends its lowered code |
| StmtCodegen.GenerateDecl | frontend/ast/AST.cpp:531-568 | the slot is allocated before the initial value is generated, and the name is entered last |
| StmtCodegen.GenerateStatements | frontend/ast/AST.cpp:289-293 | the statements of a list are generated one after the other |
| StmtCodegen.GenerateStatement | frontend/ast/AST.cpp:56-314 | generating any statement appends exactly its lowered code and allocations, restores the target stacks, never looks at an empty stack, and names allocated slots only |
| StmtCodegen.GenerateParameters | frontend/ast/AST.cpp:458-476 | each parameter gets a slot its value is stored to |
| StmtCodegen.GenerateFunction | frontend/ast/AST.cpp:385-447 | the finished factory holds the listing that the function-level results speak about, with empty target stacks and distinct labels; its stack allocations are those of the parameters, the merged return value and the body, and if every name is declared before its use they include every slot that an instruction of the listing names |
| Slots.ExprCovers | frontend/ast/AST.cpp:907-1251 | the code of an expression names only slots of known variables and slots it allocates itself |
| Slots.StatementCovers | frontend/ast/AST.cpp:56-314 | the code of a statement names only slots of known variables, the merge slot and slots it allocates itself; every name it declares stands for such a slot afterwards |
| Slots.FunctionCovers | frontend/ast/AST.cpp:416-441 | every slot that the finished listing of a function names is allocated |
| FunctionFrame.LayOutFunction | backend/IRtoLLIR.cpp:617-625 | every slot that the code of a function names has a place in its frame, so looking it up never fails |
| Grammar.SameItemsSameTree | frontend/parser/Parser.cpp:979-1012 | for any operands and operators in a row there is at most one tree in which left children bind at least as tightly as their parent, right children strictly tighter, and an assignment takes all on its right and is never a left child |
| Grammar.UniqueTree | frontend/parser/Parser.cpp:959-1178 | a token sequence begins with at most one such expression that no operator follows, with prefix operators and parentheses |
| Grammar.OperandsDiffer | frontend/parser/Parser.cpp:959-977 | no operand is a proper beginning of another |
| Grammar.GroupsExactly | frontend/parser/Parser.cpp:1091-1097 | of two operators that bind equally, the tree grouped to the right is well formed if and only if the first is `=`, and the one grouped to the left if and only if it is not; so compound assignments group to the left, against section 6.5.16 of ISO/IEC 9899:2011 |
| Grammar.OperatorsExactly | frontend/parser/Parser.cpp:979-1012 | the operators of the levels, and no others, stand between operands and end no expression; `&`, `*`, `!` and `-`, and no others, stand before one |
| Grammar.GroupsByLevel | frontend/parser/Parser.cpp:979-1012 | three operands are grouped to the right if and only if the second operator is on a tighter level or the first is `=`, otherwise to the left; the levels are, loosest first: assignments, `&&`, `&`, equality with `<=` and `>=`, `<` and `>`, shifts, `+ -`, `* / %` |
| Grammar.GroupedTree | frontend/parser/Parser.cpp:1025-1149 | that is the only tree of the three operands, whatever ends the expression |
| Grammar.GroupsLikeC | frontend/parser/Parser.cpp:979-1012 | of all pairs of operators, exactly three kinds are grouped against section 6.5 of ISO/IEC 9899:2011: a compound assignment before an assignment, `<=` or `>=` behind `==` or `!=`, and `<` or `>` behind `<=` or `>=` |
| Parser.ExpressionParser.ParseBinaryExpressionRHS | frontend/parser/Parser.cpp:1025-1149 | the tree yields the left operand and the tokens consumed, obeys the grammar, binds at least as tightly as asked, and stops before the first operator that binds less; on every input that continues the expression it succeeds |
| Parser.ExpressionParser.ParseExpression | frontend/parser/Parser.cpp:1014-1023 | parsing succeeds without complaint if and only if the input begins with an expression that no operator follows, and then returns the only tree the grammar allows, having consumed exactly its tokens; the number of lvalue complaints is that of the misused assignments |
| Parser.MisusedExactly | frontend/parser/Parser.cpp:1062-1071 | no assignment is complained about if and only if every `=` has a variable on its left |
| Parser.ExpressionParser.ParseUnaryExpression | frontend/parser/Parser.cpp:959-977 | prefix operators nest to the right of each other and succeed exactly on operands |
| Parser.ExpressionParser.ParsePrimaryExpression | frontend/parser/Parser.cpp:1165-1178 | a primary expression is found exactly where an operand starts; otherwise there is no result |
| Parser.ExpressionParser.ParseParenthesized | frontend/parser/Parser.cpp:1166-1170 | a parenthesised expression is found exactly where one starts; a missing parenthesis is reported and skipped over |
| Parser.ExpressionParser.Expect | frontend/parser/Parser.cpp:7-18 | the next token is consumed whatever it is, and a wrong one is counted |
| Registers.RegisterInfo.GetParentReg | backend/TargetArchs/AArch64/AArch64RegisterInfo.cpp:79-87 | the search finds the 64-bit register of every 32-bit register and nothing for others |
| Registers.AliasingIsSharingAParent | backend/TargetArchs/AArch64/AArch64RegisterInfo.cpp:42-73 | two registers share bits if and only if they have the same 64-bit register |
| Registers.PoolsAreDistinct | backend/TargetArchs/AArch64/AArch64TargetABI.cpp:9-34 | the argument registers are x0 to x7 in this order, the caller-saved ones exactly x0 to x7 and x9 to x15, the callee-saved ones exactly x19 to x28, all different 64-bit registers |
| LiveRanges.ComputeLiveRanges | backend/RegisterAllocator.cpp:144-172 | the loops compute for each register the range from its first to its last mention and the size of the first |
| LiveRanges.RangesCover | backend/RegisterAllocator.cpp:157-167 | a range covers every mention of its register |
| LiveRanges.RangesTight | backend/RegisterAllocator.cpp:157-167 | both ends of a range are mentions of its register, except the start of a parameter and the end of a register mentioned once |
| LiveRanges.LiveWhereMentioned | backend/RegisterAllocator.cpp:144-172 | wherever an instruction mentions a register, the register is live |
| LinearScan.BusyStep | backend/RegisterAllocator.cpp:213-256 | after each step the ranges holding a register are exactly the scanned ones that last until the entry's definition |
| LinearScan.LinearScanner.GetNextAvailableReg | backend/RegisterAllocator.cpp:63-100 | a register is found exactly when some is left and the size is 32 or 64; it is the first of the pool, or of the backup when the pool is empty, or its lower half; a backup register taken is recorded in order |
| LinearScan.LinearScanner.Assign | backend/RegisterAllocator.cpp:215-219 | the register handed out is held by no range in the work list |
| LinearScan.LinearScanner.FreeExpired | backend/RegisterAllocator.cpp:228-255 | the index loop with its erasures removes exactly the ranges that ended before, and puts their 64-bit registers back; no register is lost or duplicated |
| LinearScan.LinearScanner.Scan | backend/RegisterAllocator.cpp:213-256 | allocation succeeds if and only if every scanned entry has a register size and fewer scanned ranges before it last until the previous entry's definition than there are registers; then ranges that share an instruction share no register, however equal keys were ordered, every register is free, in reserve or held exactly once, and the recorded callee-saved registers are a prefix of the reserve |
| RegisterAllocation.PreAllocateParameters | backend/RegisterAllocator.cpp:16-35 | the k-th parameter gets the k-th of x0 to x7, or its lower half exactly when 32 bits are enough, and at most eight parameters are accepted |
| RegisterAllocation.PreAllocateReturnRegister | backend/RegisterAllocator.cpp:37-61 | the first return of the last block with a number in its operand puts that number into x0, or into its lower half unless the operand has 64 bits; numbers no return mentions keep their registers |
| RegisterAllocation.EntryInRegisters | backend/RegisterAllocator.cpp:21-34 | at a call, where parameter k holds the low bits of xk, every parameter is in the register the allocator fixed for it |
| RegisterAllocation.RemoveRegister | backend/RegisterAllocator.cpp:129-141 | a pre-allocated register, its parts and its whole leave the pool, that is, exactly its 64-bit register does |
| RegisterAllocation.RemovePreAllocated | backend/RegisterAllocator.cpp:128-142 | the pool keeps, in order, exactly the registers that no pre-allocated one shares bits with |
| RegisterAllocation.FreeIsUsable | backend/RegisterAllocator.cpp:117-142 | the registers left to hand out are distinct and share no bits with pre-allocated ones |
| RegisterAllocation.RewriteOperands | backend/RegisterAllocator.cpp:267-280 | every virtual register, parameter and memory base is replaced by its physical register, in place |
| RegisterAllocation.RunRA | backend/RegisterAllocator.cpp:103-280 | the pass succeeds exactly under the stated condition and then produces the rewritten code of an allocation in which no register it hands out shares bits with one fixed by the calling convention, and of the others none that meet do; the recorded callee-saved registers are a prefix of the list and exactly those that some virtual register got |
| RegisterAllocation.AllocationSeparates | backend/RegisterAllocator.cpp:103-280 | such an allocation keeps apart all registers that are live together, if the convention itself does |
| RegisterAllocation.AllocatedCodeRuns | backend/RegisterAllocator.cpp:103-280 | for every semantics of the instructions, every control flow and every run on virtual registers, the allocated code passes through the same instructions with the same memory; at every return the register of the operand holds the returned value, and at those of the last block it is the return register |
| RegisterAllocation.OnlyClaimedReturn | backend/RegisterAllocator.cpp:37-61 | if the convention has given the return register to some virtual register, any other gets it, or its lower half, if and only if the convention says so too; so at a return outside the last block the value is in the return register only if the convention put it there |
| RegisterAllocation.ReturnRegisterStays | backend/RegisterAllocator.cpp:103-280 | if moreover no instruction defines a register fixed to the return register, it holds throughout every run what it held at the call |
| RegisterAllocation.FirstReturnDecides | backend/RegisterAllocator.cpp:43-60 | of the returns of the last block with the same number in their operand, be it a register or an immediate, the first decides which return register that number gets |
| RegisterAllocation.ParametersStayExactly | backend/RegisterAllocator.cpp:21-61 | every parameter keeps its argument register if and only if the first return of the last block that has its number in the operand, if there is one, claims the register it is in |
| ReturnedNumber.ReturnedNumberMovesParameter | backend/RegisterAllocator.cpp:43-60 | int g; int f(int a, int b) { g = b; return 3; }: b has the number 3, and whatever allocation is found, the allocated code stores a |
| EarlyReturn.EarlyReturnLosesValue | backend/RegisterAllocator.cpp:41-58 | int g; int f(int a) { if (a > 9) { return a + 1; } g = a; }: the sum is returned outside the last block, and whatever allocation is found, it is not in the return register |
| RegMachine.StepsAgree | backend/RegisterAllocator.cpp:267-280 | one step on virtual registers is matched by one step of the rewritten code |
| RegMachine.RunsAgree | backend/RegisterAllocator.cpp:267-280 | any number of steps on virtual registers is matched by as many steps of the rewritten code, jumps in both directions included |
| MachineIR.RemainderIs | backend/TargetInstructionLegalizer.cpp:14-21 | what MOD computes has the sign of the dividend and is smaller than the divisor (section 6.5.5 of ISO/IEC 9899:2011) |
| MachineIR.ModExpands | backend/TargetInstructionLegalizer.cpp:14-51 | dividing, multiplying back and subtracting, each step wrapped to 32 bits, is the remainder, signed and unsigned |
| Expansions.ExpansionRuns | backend/TargetInstructionLegalizer.cpp:14-87 | each expansion computes what the instruction did and changes only fresh registers besides |
| Expansions.ExpansionIsLighter | backend/MachineInstructionLegalizer.cpp:13-35 | an expansion weighs less than what it replaces, although it may need expansion itself |
| Expansions.MergeRuns | backend/TargetArchs/AArch64/AArch64InstructionLegalizer.cpp:142-158 | a zero extension of the value just loaded merges into the load; only the old destination of the load differs |
| Expansions.MergeIsExact | backend/TargetArchs/AArch64/AArch64InstructionLegalizer.cpp:30-38 | merging a zero extension into the load before it is right for all states if and only if its operand is the loaded register and both have the same width, neither of which the legalizer checks |
| Expansions.LiteralIsTakenForLoad | backend/TargetArchs/AArch64/AArch64InstructionLegalizer.cpp:30-38 | u + 1 for an unsigned long u: the cast of the literal is merged into the load of u, and the sum is formed from u and what the register held before |
| Expansions.ReplaceKeeps | backend/TargetArchs/AArch64/AArch64InstructionLegalizer.cpp:67-178 | a rewrite inside a block keeps the meaning of the block if nothing later reads the registers it changes |
| Legalizer.FreshExactly | backend/MachineFunction.cpp:7-25 | the register handed out is already in use if and only if the counter jumped onto the largest register and that occurs once |
| Legalizer.StructTakesParameter | backend/MachineFunction.cpp:7-25 | f(int a, struct S s): the first register for s, asked for when only a has been seen, is the one of a |
| Legalizer.ReachFresh | backend/MachineFunction.cpp:7-25 | a counter ahead of all registers, or at the number of a parameter and otherwise ahead, leads to a register that is not in use |
| Legalizer.MachineFunction.GetNextAvailableVReg | backend/MachineFunction.cpp:7-25 | the scan over parameters and operands moves the counter as specified and hands out its value, which is new if the counter was ahead or at a parameter |
| Legalizer.MachineFunction.Check | backend/TargetArchs/AArch64/AArch64InstructionLegalizer.cpp:11-45 | an instruction is reported legal exactly when it is no remainder, no subtraction from an immediate, no multiplication or division by one, no store of one, no address of a symbol, and no zero extension behind a load |
| Legalizer.MachineFunction.ExpandMOD | backend/TargetInstructionLegalizer.cpp:14-51 | the remainder is replaced by its expansion with two fresh registers |
| Legalizer.MachineFunction.ExpandSTORE | backend/TargetArchs/AArch64/AArch64InstructionLegalizer.cpp:67-99 | zero is stored from the zero register, other immediates through a fresh register |
| Legalizer.MachineFunction.ExpandArithmeticInstWithImm | backend/TargetArchs/AArch64/AArch64InstructionLegalizer.cpp:101-120 | the immediate operand is loaded into a fresh register before the instruction |
| Legalizer.MachineFunction.ExpandGLOBAL_ADDRESS | backend/TargetArchs/AArch64/AArch64InstructionLegalizer.cpp:160-178 | the address is formed from its page and its low twelve bits |
| Legalizer.MachineFunction.ExpandZEXT | backend/TargetArchs/AArch64/AArch64InstructionLegalizer.cpp:142-158 | the load becomes a zero-extending load and the extension is erased |
| Legalizer.MachineFunction.InsertInstr | backend/MachineBasicBlock.cpp:14-19 | the instruction is inserted at its place and the others move |
| Legalizer.MachineFunction.InsertBefore | backend/MachineBasicBlock.cpp:28-39 | the instruction given by its address is searched, and the new one is inserted before it |
| Legalizer.MachineFunction.InsertAfter | backend/MachineBasicBlock.cpp:41-52 | the instruction given by its address is searched, and the new one is inserted behind it |
| Legalizer.MachineFunction.ReplaceInstr | backend/MachineBasicBlock.cpp:54-68 | the instruction given by its address is searched and replaced |
| Legalizer.MachineFunction.EraseInstr | backend/MachineBasicBlock.cpp:82-89 | the instruction given by its address is searched and removed; if it is not there nothing changes |
| Legalizer.MachineFunction.Expand | backend/TargetInstructionLegalizer.cpp:89-113 | the instruction is rewritten by the expansion for its opcode |
| Legalizer.ExpandKeeps | backend/MachineInstructionLegalizer.cpp:13-35 | expanding at the index keeps everything before it legal and the meaning of the block, and makes what is left to visit lighter |
| Legalizer.MergeKeeps | backend/MachineInstructionLegalizer.cpp:13-35 | merging a zero extension at the index keeps the earlier instructions legal and the meaning of the block, and makes what is left to visit lighter |
| Legalizer.MachineFunction.LegalizeBlock | backend/MachineInstructionLegalizer.cpp:13-35 | the walk terminates and then the target has every instruction, for all blocks; if the zero extensions behind loads extend them, from every state where the original block runs the new one runs too, leaves it by the same jump, and leaves memory, observations and all original registers except merged load results the same |
| Legalizer.MachineFunction.Run | backend/MachineInstructionLegalizer.cpp:7-36 | afterwards no block has a remainder, a subtraction from an immediate, a multiplication or division by one, a store of one, an address of a symbol, or a zero extension behind a load; every block whose zero extensions fit means what it meant, and the next register handed out is still unused |
| LegalizedRuns.LegalizedFunctionRuns | backend/MachineInstructionLegalizer.cpp:7-36 | for every run of a function through its blocks, with jumps from the middle of blocks and in both directions, the legalized function visits the same blocks and ends with the same memory, observations and registers, except those given up |
| FrameLayout.AndSplits | backend/Support.cpp:3-5 | masking with a number and with its complement splits every value |
| FrameLayout.AlignedIsNear | backend/Support.cpp:3-5 | for every alignment of at least one, the aligned value is less than one alignment away, without overflow |
| FrameLayout.AlignedIsLeast | backend/Support.cpp:3-5 | for powers of two it is the least multiple that is not smaller |
| FrameLayout.SlotsAreDisjoint | backend/StackFrame.cpp:15-33 | the slots of a frame do not overlap and lie inside its layout, whatever order they were inserted in and whatever their sizes |
| FrameLayout.SlotIsInside | backend/StackFrame.cpp:15-33 | the last slot ends exactly where the layout ends |
| FrameLayout.SmallFramesFit | backend/StackFrame.cpp:15-33 | frames of less than two gigabytes never overflow |
| FrameLayout.StackFrame.InsertStackSlot | backend/StackFrame.cpp:6-13 | the slot is put in its place by id; if ids ascend, the frame size remains the end of the layout |
| FrameLayout.StackFrame.GetPosition | backend/StackFrame.cpp:15-33 | the position is that of the slot in the layout of all slots |
| FrameLayout.AllocateFrame | backend/IRtoLLIR.cpp:617-625 | allocations in the order of their ids make a frame of exactly the size of its layout |
| FrameLayout.LateSlotExactly | backend/StackFrame.cpp:6-33 | when a slot is inserted out of order, the size grows by it at the end and the layout by it in its place, so the size is less than the layout needs if and only if the first grows less |
| FrameLayout.LatePowerExactly | backend/StackFrame.cpp:6-33 | for sizes that are powers of two, the size is less than the layout needs if and only if the slots behind the late one, moved up to the next multiple of its size, end beyond the next multiple after their end; never if the late slot needs no padding |
| FrameLayout.LateSlotIsApartExactly | backend/PrologueEpilogInsertion.cpp:30-50 | operands keep the positions of the layout before a late insertion and only the late slot is looked up after it: it shares no byte with any earlier slot if and only if some slots behind it fit into the padding before it and the next starts behind it |
| FrameLayout.LateSlotNeedsPadding | backend/PrologueEpilogInsertion.cpp:30-50 | if no slot behind the late one is larger, as for the 16 bytes of the link register, they must all fit into the padding before it |
| FrameLayout.LinkRegisterOverwritesLocal | backend/PrologueEpilogInsertion.cpp:169-177 | locals 9998 (one byte) and 10001 to 10004 (four bytes each) around slot 10000: the link register is saved over the last local |
| FlatStack.LowerStackAccess | backend/RegisterAllocator.cpp:285-320 | the first memory operand is found, removed, and replaced at the end by a base register and an offset |
| FlatStack.LowerStackAccesses | backend/RegisterAllocator.cpp:282-322 | in every instruction the first memory operand becomes a base register and an offset, a slot through the stack pointer and its position |
| FlatStack.StepFlattens | backend/RegisterAllocator.cpp:282-322 | one instruction on separate slots, addresses of slots included, is matched by the rewritten one on flat memory |
| FlatStack.FlatMemoryRefines | backend/RegisterAllocator.cpp:282-322 | every program whose accesses stay in their slots, also through registers that hold addresses of slots, goes through the same instructions on flat memory, jumps in both directions included, with the same bytes in the frame and outside and each address at its place |
| TypeLayout.GetByteSize | middle_end/IR/Type.cpp:8-26 | the size of a type is computed member by member for structs, in 32 bits |
| TypeLayout.CalcElemSize | middle_end/IR/Type.hpp:59-66 | one step in a dimension is the product of the later dimensions times the element size, in 32 bits |
| TypeLayout.GetElemByteOffset | middle_end/IR/Type.hpp:67-75 | the offset of a member is the sum of the sizes before it, in 32 bits |
| TypeLayout.SizeIsExact | middle_end/IR/Type.cpp:8-26 | the computed size is that of the object if and only if the bits of every member, and the bytes of every struct, can be counted in 32 bits |
| TypeLayout.OffsetIsExact | middle_end/IR/Type.hpp:67-75 | for such members the computed offsets are right as well |
| TypeLayout.ArraySize | middle_end/IR/Type.cpp:3-26 | an array is as large as its elements together, and reducing a dimension gives one of them |
| TypeLayout.BitsFit | middle_end/IR/Type.cpp:22-23 | the size in bytes of a scalar or array holds all its bits, and one byte less does not |
| TypeLayout.PathInside | middle_end/IR/Type.hpp:59-75 | the bytes of an access path lie inside its object |
| TypeLayout.PathsAreDisjoint | middle_end/IR/Type.hpp:59-75 | different access paths into scalars, arrays and nested structs are different bytes |
| TypeLayout.PathsCover | middle_end/IR/Type.hpp:59-75 | every byte of an object is named by a path: there are no gaps between members or elements |
| TypeLayout.ChainIsRowMajor | frontend/ast/AST.cpp:712-740 | the chain of accesses to an array element ends at its row-major position (section 6.5.2.1 of ISO/IEC 9899:2011) |
| TypeLayout.FollowIsPath | frontend/ast/AST.cpp:712-883 | the chain of accesses into arrays and structs ends at the byte the access path names |
| TypeLayout.FollowIsChain | frontend/ast/AST.cpp:712-740 | on an array that is the chain of its dimensions |
| Gep.LowerGEP | backend/IRtoLLIR.cpp:256-383 | the emitted address arithmetic is that of the specification, for all kinds of bases and indices, whose meaning RegisterIndexRuns and ConstantIndexRuns state |
| Gep.RegisterIndexRuns | backend/IRtoLLIR.cpp:303-382 | with an index in a register, the result is the base plus the sign-extended index times the element size, and no other register changes |
| Gep.ConstantIndexRuns | backend/IRtoLLIR.cpp:284-302 | with a constant index, the result is the base plus the index times the element size, or for a struct plus the sizes of the members before the one named, folded in 32 bits as the code computes it |
| Gep.FoldingIsExact | backend/IRtoLLIR.cpp:284-302 | the folded form leads to the element, or to the member of a struct, if and only if the byte distance fits: unsigned for globals and registers, signed for slots, so a negative index on a global or a pointer goes wrong |
| Gep.NegativeIndexFolds | backend/IRtoLLIR.cpp:284-302 | p[-1] for a pointer to ints: the folded address is four gigabytes above the one with the index in a register |
| Gep.AccessIsPath | frontend/ast/AST.cpp:712-883 | the code of an access along any path into arrays and structs, with indices in registers or constant, ends at the byte the path names |
| Gep.SecondMember | frontend/ast/AST.cpp:852-883 | struct { int a; int b; } s: the code of s.b ends four bytes behind the start of s |
| Gep.AccessIsRowMajor | frontend/ast/AST.cpp:712-740 | for an array, also with fewer indices than dimensions, that is the row-major address (section 6.5.2.1 of ISO/IEC 9899:2011) |
| Gep.LowerAccess | frontend/ast/AST.cpp:712-883 | the accesses are emitted one after the other, each from the address and the type of what the one before selected |

## Left out

- The lexer, the preprocessor, assembly emission, printing, the driver and file reading: input, output and text formatting.
- Calls, struct passing and return, memory copies and the physical-register moves around calls: the allocator does not track fixed physical operands.
- The prologue and epilogue: the saving of callee-saved registers is marked as unsolved in the repository.  RISC-V: it has no parent registers.
- Floating point, pointers with address-of, global initializers, implicit casts and instruction selection: they add cases, not harder results.
- Values in lowering are 32-bit ints without width tracking; division by zero, oversized shifts, unset variables and names that were never declared make a source run undefined, and nothing is claimed about it.  A name that is not in the symbol table reads as slot zero in the code generator, where the program would hold a null pointer.
- Parameters are assumed to be distinct, and the arguments to be 32-bit values.
- Unparenthesised `?:`, calls, subscripts, member accesses and `++`/`--` inside the parser: a Name or Number token stands for a whole postfix expression.  Casts and the implicit conversions the parser inserts are not part of the trees; parentheses are kept as nodes.
- A failed assertion of the parser (no primary expression) is the result None.
- `case` labels are written before `default`, as in the syntax tree; the order of labels in the text is not part of the model.
- StmtCodegen.GenerateFunction: that all slots are allocated is stated for functions whose names are declared before their use; the symbol table never forgets a name, so one used behind its scope counts as declared, as in the program.
- ExprCorrectness.ExprRuns: excludes expressions whose conditions are assignments of comparisons, because the stored value is then wrong; Limits.TestableIsExact shows that exactly these are excluded.
- StmtRuns.StatementRuns: excludes `continue` in a `while`, shadowing declarations, and a last case without statements; WhileContinue.CodeRunsAsLowered, Limits.ShadowingIsExact and Limits.LastCaseIsExact say what happens then.  A declaration is no statement in C, so bodies without braces are none.
- Limits.ShadowingIsExact: an initialiser that names the variable it declares reads the outer one, as the code does, where C would have it read the new one.
- RegisterAllocation.RunRA: the order that sorting gives to equal keys is a parameter, so the result holds for each.  Run-time aborts (too many parameters, no register left, no register of the size) are the result false.
- RegisterAllocation.AllocatedCodeRuns: assumes that registers fixed by the convention for ranges that meet differ and have the right width, and that no return claims a parameter's number for another register; returns outside the last block get the value in the register of their operand only, see OnlyClaimedReturn; a virtual register carried around a loop makes the run undefined.  Memory operands that are slots do not take part in allocation and are treated in FlatStack.
- Legalizer.MachineFunction.LegalizeBlock: the meaning is kept if a zero extension directly behind a load extends the loaded register and that register is not mentioned later in the block; a merged load to another register no longer sets its own, so that register is excepted.  The operands of a remainder are a register, and a register or an immediate.
- LegalizedRuns.LegalizedFunctionRuns: no block reads a register that was given up in another block.
- Legalizer: widths other than 32 bits are modelled for loads and zero extensions only.
- FlatStack.FlatMemoryRefines: the address of a slot may be taken, moved on and used for accesses; storing it in memory or computing with it otherwise is undefined, and no instruction writes the stack pointer.
- TypeLayout: pointers and arrays of structs are not covered.
- Gep.FoldingIsExact: of structs, those whose sizes can be computed in 32 bits (TypeLayout.SizeIsExact).
- Gep: addresses are unbounded numbers; a register index into a struct is an unconditional assertion failure in the program.
- The IR type, live-range entries and machine instructions are values here; updating their fields through shared pointers is modelled only where the factory, the frame, the scanner, the parser and the machine function are objects.
