# Verified models of C1's x86 back end

HotSpot's client compiler (C1) for x86, and a few pieces around it, modelled and proved in Dafny.

**The x87 FPU stack allocator.** C1 generates LIR over numbered FPU registers; the processor has a
stack of eight slots that every instruction rotates. The allocator inserts exchanges, loads and pops,
rewrites operands to distances from the top, and makes the stacks agree on control flow edges.
`Lir` gives the meaning of LIR over registers, `X87` the instructions emitted for the rewritten
operations and their effect on a value stack. Values are terms in which only the operands of
addition and multiplication commute, so equal terms are equal under any interpretation of floating
point. `StackSim`, `Allocator`, `StackMerge`, `Graph` and `Handlers` are the allocator as it works, in
place on arrays and lists; `AllocSpec` says what one operation does to the stack and the list, and
`Raising` where it stands when an operation raises an exception. The result is `Graph.MethodSim`: in
every execution of every method, along any path and through any number of exceptions and their
handlers, the rewritten code never overflows or underflows the FPU stack and has exactly the effects of
the original code. Code behind a branch that is taken is not run, in blocks and in entry code.

**Thin locks.** `ThinLock` is a step system of any number of threads on the fast paths of
lock_object and unlock_object, with every load, store and compare-and-swap a step of its own.
`LockRuns` is about whole operations in runs of that system.

**Instruction encoding.** `Encoding` emits operands and prefixes and decodes them by the rules of
sections 2.1.5 and 2.2.1 of the Intel SDM Volume 2A. `Decoder` is locate_operand, `Instructions` says
for which instructions it is right, and `Reach` is the test for RIP-relative addressing.

**Smaller cores.** `Arithmetic` holds the expansions of division, remainder and multiplication,
`ArrayAlloc` the size computation and clearing of arrays, `TypeProfile` the profile cell of the
interpreter, and `MapPhase` the map phase of a benchmark. `Stacks`, `Shuffle`, `Simulation`,
`BlockSim`, `Inserted`, `WordBits` and `Options` serve the others.

What is taken from outside:

- Live sets, last-use flags and operand registers come from register allocation. `OpOk` in `Lir` and
  `WfCfg` in `Graph` state what is required of them: operands that are read are live, a result that the
  source asserts to equal the left operand does, temporaries are distinct, a right operand in its last use
  differs from the left one, critical edges are split, no FPU operation follows the first branch to a
  successor, and each block comes after one of its predecessors. A strict double multiplication or division
  scales its left operand in place, so its right operand must be another register; `StrictExact` shows that
  this condition is exact.
- Exceptions are raised by operations before the first branch to a successor. Their entry code consists of
  moves that read live registers and load no FPU register, and handler blocks are entered by exceptions only.
  Moves to and from memory, calls and operations without FPU operands raise before they take effect, all
  others when they are complete: that is where debug information is computed.
- Some operations pop or overwrite an operand whatever its last-use flag says: moves to xmm registers,
  conversions to long, the right operand of a remainder, and the operands of the mathematical functions. In
  the meaning of LIR that register holds no value afterwards, so code that still reads it is not well-formed.
- The effects of x87 instructions are those of the instruction pages of the Intel SDM Volume 2.
- Lock records of different threads are at least a page apart, and stack pointers are word-aligned.
- The maps given to a benchmark thread are distinct objects, and the order in which a hash map hands out its
  entries is arbitrary.

Where the code and its comments disagree, the model follows the code:

- The comment on the recursion test says `hdr <= rsp + page_size` and two cleared bits
  (c1_MacroAssembler_x86.cpp:78-88). The code accepts `hdr < rsp + page_size`, and with words of eight
  bytes three bits count. `RecursionTestExact` states the code's condition.
- The comments on fdivp, fdivrp, fsubp and fsubrp (assembler_x86.cpp:4012-4038, 4274-4300) do not match the
  operand order of the instruction pages; `ArithSelection` shows that the emitted bytes are the right ones.
- locate_next_instruction promises the end of any emitted instruction. It is wrong for some the assembler
  does emit. `EndExact` and `WalkExact` give the exact condition over instructions made of prefixes, an
  opcode, and its operand and immediate. The opcode has one byte, or stands behind 0x0F, 0x0F38 or 0x0F3A,
  each with or without 0x66; behind 0xF2 or 0xF3, where it may be any; or behind a VEX prefix of map 1, 2 or
  3. Only conditional jumps behind 0x66 are left aside. The end is missed for some whose immediate is
  misjudged, for all without a case, for those where an operand is looked for and there is none, and, behind
  0xF2 and 0xF3, for opcodes of other lengths than two bytes unless the length read happens to be the true
  one. `MismeasuredExamples` gives seven that are emitted, among them vzeroupper, pause, rep movs and adoxq.

## Model

| member | source | states |
|---|---|---|
| Graph.MethodSim | bdavm/src/cpu/x86/vm/c1_LinearScan_x86.cpp:121-312 | from a method entry with an empty FPU stack, every execution of the rewritten code (loops, every branch taken or not, and any number of exceptions with their handlers) is free of stack faults and has exactly the observable effects of the original LIR |
| Graph.PathSim | bdavm/src/cpu/x86/vm/c1_LinearScan_x86.cpp:121-312 | the same from any block, entered with its recorded stack and any values in its live registers, along a path of block exits or up to the exception that ends it, which enters its handler with an empty stack |
| Graph.BlockSimulates | bdavm/src/cpu/x86/vm/c1_LinearScan_x86.cpp:161-312 | one block, left by any of its branches, at its end or by an exception: code behind that point is not run, and what is in front of it has the effects of the original |
| Graph.RewritesRaise | bdavm/src/cpu/x86/vm/c1_LinearScan_x86.cpp:214-312 | an allocated block has, for each exception one of its operations may raise, entry code that takes the rewritten code from that operation to the handler with the effects of the original |
| Raising.RaiseSim | bdavm/src/cpu/x86/vm/c1_LinearScan_x86.cpp:214-240 | for every operation the stack recorded for its debug information holds, at the point where it may raise, the values of the registers live there |
| Raising.RaiseRun | bdavm/src/cpu/x86/vm/c1_LinearScan_x86.cpp:161-312 | straight-line code left at any operation by an exception: what was rewritten up to there and the entry code up to its jump reach the handler with an empty stack and the effects of the original |
| Raising.RaiseExtends | bdavm/src/cpu/x86/vm/c1_LinearScan_x86.cpp:463-917 | what an operation has inserted where it may raise stays, and at most the operation itself follows |
| Raising.CutInside | bdavm/src/cpu/x86/vm/c1_LinearScan_x86.cpp:161-211 | later operations and the merge do not disturb the position at which an operation may raise |
| Raising.RaiseCovers | bdavm/src/cpu/x86/vm/c1_LinearScan_x86.cpp:214-240 | the stack recorded for an operation has every register live where it raises |
| Graph.AllFaithful | bdavm/src/cpu/x86/vm/c1_LinearScan_x86.cpp:121-158 | the invariant over all blocks implies faithfulness of all executions at once |
| Graph.EdgesAgree | bdavm/src/cpu/x86/vm/c1_LinearScan_x86.cpp:1139-1242 | after allocation all predecessors of a block end with one stack, the one recorded for it |
| Graph.Allocate | bdavm/src/cpu/x86/vm/c1_LinearScan_x86.cpp:121-158 | the returned code does in every execution from an entry what the original blocks do; each block leaves with the recorded state of each successor, and a block has one just when it has a predecessor |
| Graph.AllocateBlock | bdavm/src/cpu/x86/vm/c1_LinearScan_x86.cpp:161-211 | one block is its handled operations, merge code before the first branch to a successor, and its tail, with entry code for every exception of its operations; recorded states are only added, never changed |
| Graph.HandleHead | bdavm/src/cpu/x86/vm/c1_LinearScan_x86.cpp:168-204 | one turn of the loop before the first branch: the operation is rewritten, and the handlers of its exceptions get their entry code |
| Graph.AllocateHandlers | bdavm/src/cpu/x86/vm/c1_LinearScan_x86.cpp:214-240 | every handler of the operation gets the entry code for the stack at the operation, the other ones keep theirs, and list, position and simulated stack of the block are as before |
| Graph.LeaveBlock | bdavm/src/cpu/x86/vm/c1_LinearScan_x86.cpp:186-210 | merge code stands in front of the first branch or at the end of the block, and only a block with one successor gets any |
| Graph.MergeWithSuccessors | bdavm/src/cpu/x86/vm/c1_LinearScan_x86.cpp:1139-1242 | afterwards the stack equals the recorded state of every successor, existing states are unchanged, the inserted code carries every register both stacks have, and a change is reported exactly if code was inserted |
| Graph.MergeIntoSuccessor | bdavm/src/cpu/x86/vm/c1_LinearScan_x86.cpp:1152-1187 | a recorded successor state is reached by merging; without one the stack is recorded, with exact usage cleaned up to just the live registers and otherwise unchanged |
| Graph.PropagateState | bdavm/src/cpu/x86/vm/c1_LinearScan_x86.cpp:1195-1224 | without a merge all successors get the current stack as their state and nothing else is recorded |
| Graph.AllocStep | bdavm/src/cpu/x86/vm/c1_LinearScan_x86.cpp:121-158 | allocating the next block keeps the invariant over all blocks done so far |
| Graph.AllocReady | bdavm/src/cpu/x86/vm/c1_LinearScan_x86.cpp:129-146 | the next block has a recorded state or is an entry, and its starting stack covers its live registers |
| Graph.EdgeHolds | bdavm/src/cpu/x86/vm/c1_LinearScan_x86.cpp:1139-1242 | whatever branch a block is left by, every register live in the successor holds its value in the slot the recorded state says |
| Graph.DeepEnough | bdavm/src/cpu/x86/vm/c1_LinearScan_x86.cpp:1044-1045 | with exact usage a stack that covers the live registers is never smaller than the recorded one, which is what the merge asserts |
| Handlers.HandlerSim | bdavm/src/cpu/x86/vm/c1_LinearScan_x86.cpp:242-312 | control leaves the rewritten entry code at its jump, by then with an empty FPU stack and after exactly the effects of its moves |
| Handlers.EntrySim | bdavm/src/cpu/x86/vm/c1_LinearScan_x86.cpp:242-312 | the same for handlers without entry code, and for an empty stack, where nothing is rewritten |
| Handlers.AllocateExceptionHandler | bdavm/src/cpu/x86/vm/c1_LinearScan_x86.cpp:242-312 | the entry code is the rewritten moves, a cleared stack and the jump, and stays as it is for an empty stack; list, position and simulated stack of the block are as before |
| Handlers.AllocateMoves | bdavm/src/cpu/x86/vm/c1_LinearScan_x86.cpp:259-288 | the loop over the entry code produces that handler code from the stack at the throwing operation |
| BlockSim.HandleAllSim | bdavm/src/cpu/x86/vm/c1_LinearScan_x86.cpp:161-211 | straight-line LIR of any length, rewritten, computes the register environment and the effects of the original |
| BlockSim.BlockPreserves | bdavm/src/cpu/x86/vm/c1_LinearScan_x86.cpp:161-211 | handled operations, any carrying merge code and a CPU-only tail together keep the meaning of the block up to each of its exits, and each branch is the one of the original; merge code behind the branch would not be run |
| BlockSim.OpTight | bdavm/src/cpu/x86/vm/c1_LinearScan_x86.cpp:463-917 | values leave the stack at their last use: if only live registers were on it before an operation, only live ones are afterwards; a return leaves its result alone |
| BlockSim.HandleAllTight | bdavm/src/cpu/x86/vm/c1_LinearScan_x86.cpp:161-211 | straight-line code that starts with just the live registers on the stack ends with just them |
| Inserted.OpBranches | bdavm/src/cpu/x86/vm/c1_LinearScan_x86.cpp:352-460 | rewriting an operation adds no branch, and keeps the one the operation is |
| BlockSim.HandleAll | bdavm/src/cpu/x86/vm/c1_LinearScan_x86.cpp:161-211 | every register live after the operations is on the simulated stack |
| BlockSim.OpCovers | bdavm/src/cpu/x86/vm/c1_LinearScan_x86.cpp:463-917 | each operation leaves all registers live after it on the stack, and its operands were there before it |
| Simulation.OpSim | bdavm/src/cpu/x86/vm/c1_LinearScan_x86.cpp:463-917 | for every operation the inserted instructions and the rewritten operation compute what the operation means, keep all other live registers in their slots, and run without stack fault or failed index assertion |
| Simulation.Op1Sim | bdavm/src/cpu/x86/vm/c1_LinearScan_x86.cpp:463-655 | the same for moves, conversions, negation, returns and rounding |
| Simulation.Op2Sim | bdavm/src/cpu/x86/vm/c1_LinearScan_x86.cpp:658-899 | the same for comparisons, arithmetic, remainder, square root, logarithms, trigonometric functions, exp and pow |
| Simulation.CallSim | bdavm/src/cpu/x86/vm/c1_LinearScan_x86.cpp:902-917 | a call finds an empty stack and its result is the only register afterwards |
| Simulation.ArithSim | bdavm/src/cpu/x86/vm/c1_LinearScan_x86.cpp:692-740 | left op right, in this order, ends up in the result register for all operand positions, last uses and strictness modes |
| Simulation.ArithRightTopSim | bdavm/src/cpu/x86/vm/c1_LinearScan_x86.cpp:712-736 | with the right operand on top the left one is updated in its slot, and a dead right operand is popped |
| Simulation.ArithConsumeSim | bdavm/src/cpu/x86/vm/c1_LinearScan_x86.cpp:718-736 | with the left operand on top a dead right operand gives its slot to the result |
| Simulation.RemSim | bdavm/src/cpu/x86/vm/c1_LinearScan_x86.cpp:742-768 | left on top and right below it are replaced by the remainder |
| Simulation.PowSim | bdavm/src/cpu/x86/vm/c1_LinearScan_x86.cpp:845-888 | pow frees two slots first and replaces its two operands by the power |
| Simulation.ClearSim | bdavm/src/cpu/x86/vm/c1_LinearScan_x86.cpp:448-460 | clearing pops everything but the preserved register, which keeps its value |
| Simulation.ExchangeSim | bdavm/src/cpu/x86/vm/c1_LinearScan_x86.cpp:358-376 | an inserted exchange permutes simulated and physical stack alike |
| Simulation.FreeSim | bdavm/src/cpu/x86/vm/c1_LinearScan_x86.cpp:378-399 | freeing a slot drops that register and no other value |
| X87.ArithSelection | bdavm/src/cpu/x86/vm/c1_LIRAssembler_x86.cpp:2410-2466 | whenever the index assertions hold, the selected instruction, by the opcode tables of the Intel SDM, writes left op right to the destination counted after the pop |
| X87.RunArithStrict | bdavm/src/cpu/x86/vm/c1_LIRAssembler_x86.cpp:2326-2366 | a strict double operation scales the left operand, and scales the result back, with one free slot and no other change |
| X87.StrictExact | bdavm/src/cpu/x86/vm/c1_LIRAssembler_x86.cpp:2326-2366 | a strict double operation computes its result if and only if the right operand is not the slot of the left one, which the first scaling overwrites |
| X87.RunArithStrictSame | bdavm/src/cpu/x86/vm/c1_LIRAssembler_x86.cpp:2326-2366 | what it computes when both operands are one slot: both are scaled |
| X87.RunArith | bdavm/src/cpu/x86/vm/c1_LIRAssembler_x86.cpp:2293-2366 | the complete arithmetic operation, with memory operands and strictness, has the effect the allocator counts on |
| X87.RunUnary | bdavm/src/cpu/x86/vm/c1_LIRAssembler_x86.cpp:2487-2513 | square root, absolute value, logarithms and trigonometric functions replace the top, given the scratch slots they need, and for the last ones a recorded stack size that is the true one |
| X87.RunPow | bdavm/src/cpu/x86/vm/c1_LIRAssembler_x86.cpp:2510-2512 | pow replaces the two topmost entries by the power, given two free slots and the true stack size |
| X87.RunSelected | bdavm/src/cpu/x86/vm/assembler_x86.cpp:876-881 | for each operand order and each first opcode byte the chosen second byte computes left op right, where the byte says |
| X87.RunFarith | bdavm/src/cpu/x86/vm/assembler_x86.cpp:876-881 | an arithmetic instruction writes its result to the top, to a slot, or to a slot with a pop, as its first opcode byte says |
| Stacks.FreeSlots | bdavm/src/cpu/x86/vm/c1_LinearScan_x86.cpp:692-696 | by pigeonhole a stack of distinct registers without n given ones leaves n of the eight slots free |
| Stacks.TwoFreeSlots | bdavm/src/cpu/x86/vm/c1_LinearScan_x86.cpp:815-842 | two distinct dead temporaries mean two free slots |
| Stacks.Pigeonhole | bdavm/src/cpu/x86/vm/c1_LinearScan_x86.cpp:1056-1086 | if every register of one stack is in another of at most its size, the two have the same registers |
| Stacks.SwapTop | bdavm/src/cpu/x86/vm/c1_FpuStackSim_x86.cpp:92-97 | the top and one slot change places and every other slot stays |
| Stacks.OffsetFromTos | bdavm/src/cpu/x86/vm/c1_FpuStackSim_x86.cpp:100-108 | the offset of a register that is on the stack is inside it and finds it |
| StackSim.FpuStackSim.PopTop | bdavm/src/cpu/x86/vm/c1_FpuStackSim_x86.cpp:70-74 | the top leaves, its entry becomes empty, and the rest stays |
| StackSim.FpuStackSim.Push | bdavm/src/cpu/x86/vm/c1_FpuStackSim_x86.cpp:84-89 | the register is the new top above an unchanged stack |
| StackSim.FpuStackSim.Swap | bdavm/src/cpu/x86/vm/c1_FpuStackSim_x86.cpp:92-97 | the top and the given slot change places |
| StackSim.FpuStackSim.TosOffset | bdavm/src/cpu/x86/vm/c1_FpuStackSim_x86.cpp:100-108 | the loop finds the distance of the register from the top |
| StackSim.FpuStackSim.GetSlot | bdavm/src/cpu/x86/vm/c1_FpuStackSim_x86.cpp:111-113 | slots count from the top |
| StackSim.FpuStackSim.SetSlot | bdavm/src/cpu/x86/vm/c1_FpuStackSim_x86.cpp:115-117 | one slot changes its register |
| StackSim.FpuStackSim.Rename | bdavm/src/cpu/x86/vm/c1_FpuStackSim_x86.cpp:119-132 | one register changes its name and no other entry changes |
| StackSim.FpuStackSim.Contains | bdavm/src/cpu/x86/vm/c1_FpuStackSim_x86.cpp:135-142 | true exactly for registers on the stack |
| StackSim.FpuStackSim.Clear | bdavm/src/cpu/x86/vm/c1_FpuStackSim_x86.cpp:161-167 | every entry is empty afterwards |
| StackSim.FpuStackSim.WriteState | bdavm/src/cpu/x86/vm/c1_FpuStackSim_x86.cpp:170-177 | the recorded state describes the stack |
| StackSim.FpuStackSim.ReadState | bdavm/src/cpu/x86/vm/c1_FpuStackSim_x86.cpp:180-186 | the stack is the one the state describes, so reading back what was written restores it |
| StackSim.StateDetermined | bdavm/src/cpu/x86/vm/c1_FpuStackSim_x86.cpp:170-186 | two states of one stack are identical, so comparing states compares stacks |
| StackMerge.MergeFpuStack | bdavm/src/cpu/x86/vm/c1_LinearScan_x86.cpp:1003-1096 | the stack becomes the successor's slot by slot, code carries every register both stacks have, exactly the surplus is popped (or the deficit added), and twice the exchanges is at most three times the wrong slots |
| StackMerge.MergeAdd | bdavm/src/cpu/x86/vm/c1_LinearScan_x86.cpp:1020-1046 | missing registers are pushed and land in their bottom-aligned final slot, the scan stays inside the successor's stack, and the remaining size difference is exact and not negative |
| StackMerge.MergeSort | bdavm/src/cpu/x86/vm/c1_LinearScan_x86.cpp:1056-1087 | the nested loops end, with the stack equal to the successor's, within the exchange budget |
| StackMerge.SettleTop | bdavm/src/cpu/x86/vm/c1_LinearScan_x86.cpp:1058-1071 | the inner loop ends with the right top and equal sizes, has popped exactly the size difference, and repairs the slot that an outer exchange disturbed |
| StackMerge.SettleStep | bdavm/src/cpu/x86/vm/c1_LinearScan_x86.cpp:1058-1071 | each inner step makes the stack less wrong or less foreign and keeps values, budget and finished slots |
| StackMerge.SkipFinished | bdavm/src/cpu/x86/vm/c1_LinearScan_x86.cpp:1073-1075 | the finished slots only grow and end at the first wrong one |
| StackMerge.FixSlot | bdavm/src/cpu/x86/vm/c1_LinearScan_x86.cpp:1077-1086 | the first wrong slot is renamed to a missing register or its register is brought to the top to open a cycle |
| StackMerge.StepXchg | bdavm/src/cpu/x86/vm/c1_LinearScan_x86.cpp:1058-1062 | an exchange of the top into its final slot makes one slot right, and two when it closes a cycle |
| StackMerge.StepOpenCycle | bdavm/src/cpu/x86/vm/c1_LinearScan_x86.cpp:1077-1086 | exchanging a right top away opens a cycle that the next inner loop closes, at a cost of one exchange |
| StackMerge.RenameSucceeds | bdavm/src/cpu/x86/vm/c1_LinearScan_x86.cpp:1063-1069 | a register foreign to the successor can only fail to be renamed while the stack is too deep, so a pop is then allowed |
| StackMerge.MergeRename | bdavm/src/cpu/x86/vm/c1_LinearScan_x86.cpp:981-1000 | the slot takes the first register of the successor that the stack lacks, or the stack has all of them |
| StackMerge.MergeInsertAdd | bdavm/src/cpu/x86/vm/c1_LinearScan_x86.cpp:938-950 | the added register ends in the given slot and what was there moves to the top |
| StackMerge.MergeCleanup | bdavm/src/cpu/x86/vm/c1_LinearScan_x86.cpp:1099-1119 | exactly the live registers of the old stack remain, with their values |
| StackMerge.CleanStep | bdavm/src/cpu/x86/vm/c1_LinearScan_x86.cpp:1099-1119 | popping a dead register keeps the slots seen so far live although the top moved among them |
| StackMerge.TrackDone | bdavm/src/cpu/x86/vm/c1_LinearScan_x86.cpp:953-1000 | code that tracked the merge to its end carries the values of all common registers |
| Shuffle.ShuffleRun | bdavm/src/cpu/x86/vm/c1_LinearScan_x86.cpp:953-979 | replaying exchanges, pops and loads of zero on a value stack is the same as tracing positions |
| Allocator.FpuStackAllocator.InsertOp | bdavm/src/cpu/x86/vm/c1_LinearScan_x86.cpp:352-356 | the operation is inserted before the current one, which stays current |
| Allocator.FpuStackAllocator.InsertExchange | bdavm/src/cpu/x86/vm/c1_LinearScan_x86.cpp:358-371 | list and stack show one exchange, and none for the top itself |
| Allocator.FpuStackAllocator.InsertFree | bdavm/src/cpu/x86/vm/c1_LinearScan_x86.cpp:378-392 | the slot is exchanged to the top if need be and popped |
| Allocator.FpuStackAllocator.InsertFreeIfDead | bdavm/src/cpu/x86/vm/c1_LinearScan_x86.cpp:394-399 | a register that is on the stack is freed, and only then |
| Allocator.FpuStackAllocator.InsertFreeUnless | bdavm/src/cpu/x86/vm/c1_LinearScan_x86.cpp:401-406 | as before, unless it is the register to keep |
| Allocator.FpuStackAllocator.InsertCopy | bdavm/src/cpu/x86/vm/c1_LinearScan_x86.cpp:408-419 | the source is loaded to a new top under the name of the target |
| Allocator.FpuStackAllocator.ClearFpuStack | bdavm/src/cpu/x86/vm/c1_LinearScan_x86.cpp:448-460 | the loop leaves the preserved register or nothing |
| Allocator.FpuStackAllocator.HandleOp1 | bdavm/src/cpu/x86/vm/c1_LinearScan_x86.cpp:463-655 | the rewriting proved correct by Op1Sim |
| Allocator.FpuStackAllocator.HandleOp2 | bdavm/src/cpu/x86/vm/c1_LinearScan_x86.cpp:658-899 | the rewriting proved correct by Op2Sim |
| Allocator.FpuStackAllocator.HandleArithRegOp | bdavm/src/cpu/x86/vm/c1_LinearScan_x86.cpp:712-738 | register operands: which operand is brought to the top, what is popped and where the result goes |
| Allocator.FpuStackAllocator.BringBothToTop | bdavm/src/cpu/x86/vm/c1_LinearScan_x86.cpp:748-757 | left on top and right below it, in at most three exchanges |
| Allocator.FpuStackAllocator.HandleLogOp | bdavm/src/cpu/x86/vm/c1_LinearScan_x86.cpp:789-810 | a logarithm frees one slot first and works on the top |
| Allocator.FpuStackAllocator.HandleIntrinsicOp | bdavm/src/cpu/x86/vm/c1_LinearScan_x86.cpp:815-842 | trigonometric functions and exp free two slots first and work on the top |
| Allocator.FpuStackAllocator.ComputeDebugInformation | bdavm/src/cpu/x86/vm/c1_LinearScan_x86.cpp:214-240 | the first call for an operation records the stack, later ones change nothing |
| Allocator.FpuStackAllocator.HandleOpCall | bdavm/src/cpu/x86/vm/c1_LinearScan_x86.cpp:902-917 | the rewriting proved correct by CallSim |
| Allocator.FpuStackAllocator.HandleCurrent | bdavm/src/cpu/x86/vm/c1_LinearScan_x86.cpp:166-206 | dispatch on the operation, which OpSim proves correct, and moving on; the stack recorded for its debug information is the one RaiseSim is about |
| AllocSpec.Clear | bdavm/src/cpu/x86/vm/c1_LinearScan_x86.cpp:448-460 | only the preserved register is left, or nothing |
| AllocSpec.PushReg | bdavm/src/cpu/x86/vm/c1_LinearScan_x86.cpp:426-428 | a push of a register that is not on the stack never exceeds eight slots |
| AllocSpec.BothToTop | bdavm/src/cpu/x86/vm/c1_LinearScan_x86.cpp:748-757 | left ends on top, right below it, and the set of registers stays |
| ThinLock.MutualExclusion | bdavm/src/cpu/x86/vm/c1_MacroAssembler_x86.cpp:38-135 | in every reachable state of any number of threads, at most one owns an object |
| ThinLock.MarkMeaning | bdavm/src/cpu/x86/vm/c1_MacroAssembler_x86.cpp:38-135 | at every step the mark is the original header if nobody owns the object, and otherwise the address of the owner's outermost lock record, which holds that header |
| ThinLock.RecursionTestExact | bdavm/src/cpu/x86/vm/c1_MacroAssembler_x86.cpp:75-94 | for every aligned stack pointer the masked difference is zero exactly when the header is aligned and its word distance above rsp is below a page; without wrap-around that is an address less than a page above |
| ThinLock.RecursionIsOwned | bdavm/src/cpu/x86/vm/c1_MacroAssembler_x86.cpp:75-94 | if the test succeeds after a failed compare-and-swap, the current thread owns the object |
| ThinLock.RelockExact | bdavm/src/cpu/x86/vm/c1_MacroAssembler_x86.cpp:75-94 | a failed compare-and-swap ends in a recursive lock exactly when the mark is an aligned address within a page of the own stack pointer |
| LockRuns.FreeLockSucceeds | bdavm/src/cpu/x86/vm/c1_MacroAssembler_x86.cpp:58-74 | a lock of a free object whose mark nobody changes before the exchange succeeds: the thread is idle again and holds the object, the mark is the record, and the record keeps the header |
| LockRuns.LeavesFastPath | bdavm/src/cpu/x86/vm/c1_MacroAssembler_x86.cpp:38-96 | exactly when a lock is left to the slow path, from its first step to its last: a holder if its outermost record is not within a page above rsp, another thread unless the object is free at the exchange and the loaded mark was its header; otherwise the lock is held |
| LockRuns.ExchangeOutcome | bdavm/src/cpu/x86/vm/c1_MacroAssembler_x86.cpp:58-74 | the exchange succeeds exactly if the mark is the loaded one with the unlocked bit, and then the object was free; otherwise no mark changes |
| LockRuns.RelockOutcome | bdavm/src/cpu/x86/vm/c1_MacroAssembler_x86.cpp:75-94 | after a failed exchange the lock is recursive, with zero in its record, or left to the slow path; no mark changes |
| LockRuns.UnlockOuter | bdavm/src/cpu/x86/vm/c1_MacroAssembler_x86.cpp:98-135 | every unlock of an outermost lock ends idle without it, the header is back in the mark, and the object is free |
| LockRuns.UnlockRecursive | bdavm/src/cpu/x86/vm/c1_MacroAssembler_x86.cpp:98-112 | every unlock of a recursive lock ends idle without it, with all marks as they were and the object still held |
| LockRuns.HeldIsNesting | bdavm/src/cpu/x86/vm/c1_MacroAssembler_x86.cpp:38-135 | in every state of every run an idle thread holds exactly the locks it has begun and not undone, in order |
| LockRuns.BalancedRestores | bdavm/src/cpu/x86/vm/c1_MacroAssembler_x86.cpp:98-135 | when every thread has undone what it locked, nothing is held and every mark is the original header again |
| ThinLock.UnlockSucceeds | bdavm/src/cpu/x86/vm/c1_MacroAssembler_x86.cpp:114-134 | at the compare-and-swap of an unlock the mark is still the record being released; UnlockOuter says what the step then does |
| ThinLock.UnlockStaysFast | bdavm/src/cpu/x86/vm/c1_MacroAssembler_x86.cpp:114-134 | hence an unlock never leaves the fast path |
| ThinLock.StepInv | bdavm/src/cpu/x86/vm/c1_MacroAssembler_x86.cpp:38-135 | every atomic step of every thread keeps the invariant |
| ThinLock.RunInv | bdavm/src/cpu/x86/vm/c1_MacroAssembler_x86.cpp:38-135 | the invariant holds in all states of all interleavings |
| ThinLock.LockedFresh | bdavm/src/cpu/x86/vm/c1_MacroAssembler_x86.cpp:60-74 | a successful compare-and-swap finds the object unowned and the displaced header equal to the original one; FreeLockSucceeds says when it succeeds |
| ThinLock.DisplacedMeaning | bdavm/src/cpu/x86/vm/c1_MacroAssembler_x86.cpp:102-112 | the displaced header read at unlock is zero exactly for a recursive lock, and otherwise the original header of the object |
| Encoding.RoundTrip | bdavm/src/cpu/x86/vm/assembler_x86.cpp:276-392 | for every register and legal address, prefix and operand bytes decode by sections 2.1.5 and 2.2.1 of the Intel SDM Volume 2A to the same operand and length, whatever follows |
| Encoding.EncodingInjective | bdavm/src/cpu/x86/vm/assembler_x86.cpp:276-392 | two operands with the same bytes are the same operand |
| Encoding.RegisterRoundTrip | bdavm/src/cpu/x86/vm/assembler_x86.cpp:4670-4728 | prefix and ModRM byte of two registers decode to the same two registers, a byte operand is the low byte of its register, and the prefix is left out just when nothing needs it |
| Encoding.CodeBuffer.PrefixAndEncode | bdavm/src/cpu/x86/vm/assembler_x86.cpp:4690-4708 | exactly that prefix is appended, and 0xC0 with the result is that ModRM byte |
| Encoding.CodeBuffer.PrefixQAndEncode | bdavm/src/cpu/x86/vm/assembler_x86.cpp:4710-4728 | the same with 64-bit operands |
| Encoding.CodeBuffer.PrefixAndEncodeOne | bdavm/src/cpu/x86/vm/assembler_x86.cpp:4670-4678 | the prefix for one register is appended, and the result is its three low bits |
| Encoding.CodeBuffer.PrefixQAndEncodeOne | bdavm/src/cpu/x86/vm/assembler_x86.cpp:4680-4688 | the same with 64-bit operands |
| Encoding.RexBits | bdavm/src/cpu/x86/vm/assembler_x86.cpp:4767-4829 | the prefix holds the high bits of the three register numbers, and is left out just when none is set and no byte register needs it |
| Encoding.SibRoundTrip | bdavm/src/cpu/x86/vm/assembler_x86.cpp:289-317 | the round trip with base and index |
| Encoding.StackRoundTrip | bdavm/src/cpu/x86/vm/assembler_x86.cpp:318-337 | the round trip for rsp and r12, which need a SIB byte |
| Encoding.PlainRoundTrip | bdavm/src/cpu/x86/vm/assembler_x86.cpp:338-357 | the round trip with a base alone, with a displacement forced for rbp and r13 |
| Encoding.BaselessRoundTrip | bdavm/src/cpu/x86/vm/assembler_x86.cpp:358-391 | the round trip for indexed, RIP-relative and absolute addresses |
| Encoding.CodeBuffer.EmitOperand | bdavm/src/cpu/x86/vm/assembler_x86.cpp:276-392 | exactly the operand bytes are appended, with the RIP-relative displacement counted from the instruction mark to the end of the instruction |
| Encoding.CodeBuffer.EmitPrefix | bdavm/src/cpu/x86/vm/assembler_x86.cpp:4767-4795 | exactly the prefix byte is appended, or none |
| Encoding.Int32RoundTrip | bdavm/src/cpu/x86/vm/assembler_x86.cpp:183-207 | four bytes read back as the signed number that was emitted |
| Decoder.LocateOperand | bdavm/src/cpu/x86/vm/assembler_x86.cpp:403-810 | the cursor loops compute the decoding function, in every branch and for every byte sequence |
| Decoder.SkipOpcode | bdavm/src/cpu/x86/vm/assembler_x86.cpp:422-742 | the opcode switch, with the reparsing after 0x66, computes where the operand starts and what follows it |
| Decoder.SkipPrefixes | bdavm/src/cpu/x86/vm/assembler_x86.cpp:422-465 | any run of prefixes is skipped, and a REX prefix with W is remembered |
| Instructions.WalkExact | bdavm/src/cpu/x86/vm/assembler_x86.cpp:812-817 | repeated decoding of any concatenation of instructions, lost and misread ones included, visits exactly the instruction boundaries, if and only if each has the length the decoder gives it by the condition of EndExact |
| Instructions.EndExact | bdavm/src/cpu/x86/vm/assembler_x86.cpp:403-817 | the end of an instruction is found if and only if either the decoder has a case for its opcode and it is not a test with an immediate, a string-prefixed SSE instruction with one, or a VEX instruction whose immediate differs from what three opcodes are assumed to have; or it is misread and happens to be of the right length |
| Instructions.MisreadEnd | bdavm/src/cpu/x86/vm/assembler_x86.cpp:711-735 | behind 0xF2 and 0xF3 an instruction whose opcode is not 0x0F and one byte, such as adox, is measured from its third body byte as if it were ModRM: the end is right if and only if that gives the true length, and from 0xC0 on it is short by all that follows |
| Instructions.EndExactFollowed | bdavm/src/cpu/x86/vm/assembler_x86.cpp:403-817 | the same among the instructions whose opcode has a case |
| Instructions.LostEnd | bdavm/src/cpu/x86/vm/assembler_x86.cpp:422-742 | the end is never found of string instructions, pause, vzeroupper and vzeroall, a lone fwait, and opcodes without a case, whatever follows |
| Instructions.MismeasuredExamples | bdavm/src/cpu/x86/vm/assembler_x86.cpp:2923-2936 | concrete instructions the assembler emits whose end is not found: four that end too early, adoxq among them, and vzeroupper, pause and a repeated move, behind which an operand is looked for |
| Instructions.OperandsExact | bdavm/src/cpu/x86/vm/assembler_x86.cpp:754-810 | the 32-bit displacement and the immediate are found where they were written and hold what was written |
| Instructions.RipTarget | bdavm/src/cpu/x86/vm/assembler_x86.cpp:363-381 | end of instruction plus the displacement found is the target if and only if the correction equals the number of bytes behind the operand |
| Instructions.LocateInsn | bdavm/src/cpu/x86/vm/assembler_x86.cpp:403-810 | where the decoder ends up for each question, on every instruction of the supported forms |
| Instructions.HeadDecodes | bdavm/src/cpu/x86/vm/assembler_x86.cpp:422-742 | prefixes and opcode of every supported form are recognised, with REX before the opcode or behind a mandatory prefix |
| Instructions.OperandDecodes | bdavm/src/cpu/x86/vm/assembler_x86.cpp:754-797 | every operand that emit_operand can produce is skipped exactly |
| Instructions.ArithInsnExact | bdavm/src/cpu/x86/vm/assembler_x86.cpp:254-266 | arithmetic with an immediate: its end and its immediate are found by the decoder |
| Instructions.ArithMeaning | bdavm/src/cpu/x86/vm/assembler_x86.cpp:254-266 | the emitted bytes are, by the opcode map of the Intel SDM, the operation asked for, on eight bytes if wide and on four otherwise, with the given operand and value, and the immediate is as short as it can be |
| Instructions.OpcodesCovered | bdavm/src/cpu/x86/vm/assembler_x86.cpp:422-742 | every byte that is no prefix, and every opcode behind 0x0F and 0x66 but for conditional jumps behind 0x66, is in the domain of EndExact and WalkExact |
| Instructions.MapsCovered | bdavm/src/cpu/x86/vm/assembler_x86.cpp:663-735 | so is every opcode behind 0xF2 and 0xF3 and in the three VEX maps, and every operand |
| Instructions.MisreadCovered | bdavm/src/cpu/x86/vm/assembler_x86.cpp:711-735 | so is every opcode behind one of these bytes and 0x0F38 or 0x0F3A, with anything behind it |
| Instructions.TablesAgree | bdavm/src/cpu/x86/vm/assembler_x86.cpp:422-742 | the decoder has a case for exactly the prefixes and opcodes listed by what they do, and no other |
| Instructions.EmitArithOperand | bdavm/src/cpu/x86/vm/assembler_x86.cpp:254-266 | opcode, operand and immediate are appended, and the operand is told how many bytes follow it |
| Instructions.EmitArith | bdavm/src/cpu/x86/vm/assembler_x86.cpp:254-266 | prefix, opcode, operand with the right correction and immediate are appended, and nothing else |
| Reach.ReachableExact | bdavm/src/cpu/x86/vm/assembler_x86.cpp:4570-4633 | for every relocation: calls and words in the code cache are reachable, none and unknown kinds are not, and for the rest the answer is yes if and only if it is not forced to be no and the displacement fits from every place in the code cache and from every length of an instruction at the current address |
| Reach.NearByExact | bdavm/src/cpu/x86/vm/assembler_x86.cpp:4576-4589 | taking targets in the code cache to be reachable from all of it is right if and only if the cache is small enough |
| Reach.ReachableAddresses | bdavm/src/cpu/x86/vm/assembler_x86.cpp:4570-4633 | an instruction emitted here for a reachable target addresses it |
| Arithmetic.Idiv | bdavm/src/cpu/x86/vm/c1_LIRAssembler_x86.cpp:2651-2665 | the emitted sequence gives Java's quotient for every 32-bit dividend and every power of two up to 2^30 |
| Arithmetic.Irem | bdavm/src/cpu/x86/vm/c1_LIRAssembler_x86.cpp:2666-2677 | the emitted sequence gives Java's remainder for the same inputs |
| Arithmetic.MultiplyLong | bdavm/src/cpu/x86/vm/c1_LIRAssembler_x86.cpp:2169-2179 | the register-pair product equals the product of the two 64-bit numbers modulo 2^64 |
| Arithmetic.PartialProducts | bdavm/src/cpu/x86/vm/c1_LIRAssembler_x86.cpp:2169-2179 | the product of the high words contributes nothing, and the carries lost in the high word are multiples of 2^64 |
| Arithmetic.StrengthReduceMultiply | bdavm/src/cpu/x86/vm/c1_LIRGenerator_x86.cpp:236-251 | for pointers of 32 bits and more, the reduction happens exactly for neighbours, computed in 32 bits, that pass the test for powers of two, and then gives the product modulo 2^32 for every constant |
| Arithmetic.LargestReduced | bdavm/src/cpu/x86/vm/c1_LIRGenerator_x86.cpp:236-251 | the largest integer is reduced, by a shift of 31, exactly where pointers have 32 bits |
| Arithmetic.MultiplyByConstant | bdavm/src/cpu/x86/vm/c1_LIRGenerator_x86.cpp:599-625 | the result is the product modulo 2^32 for every constant and pointers of 32 bits and more, and the multiplication is replaced exactly for positive powers of two and their neighbours that fit |
| Arithmetic.Log2Intptr | bdavm/src/share/vm/utilities/globalDefinitions.hpp:1138-1149 | the doubling loop finds the largest power of two not above x, also when the last doubling overflows |
| Arithmetic.PowerTest | bdavm/src/share/vm/utilities/globalDefinitions.hpp:1127-1129 | a number masked with its predecessor is zero exactly for powers of two |
| Arithmetic.IntIsPower | bdavm/src/share/vm/utilities/globalDefinitions.hpp:1127-1129 | for a 32-bit constant, sign-extended to the pointer width, the test holds exactly for the positive powers of two and, with pointers of 32 bits, for the smallest integer |
| ArrayAlloc.ArraySizeLeast | bdavm/src/cpu/x86/vm/c1_MacroAssembler_x86.cpp:302-310 | a length passes exactly up to the limit, and then the size is the least aligned one that covers header and elements, without overflow |
| ArrayAlloc.NegativeIsSlow | bdavm/src/cpu/x86/vm/c1_MacroAssembler_x86.cpp:301-303 | the unsigned comparison sends exactly negative and excessive lengths to the slow case |
| ArrayAlloc.InitializeBody64 | bdavm/src/cpu/x86/vm/c1_MacroAssembler_x86.cpp:183-233 | exactly the words from the end of the header to the size are cleared, and the test at the end of the loop never underflows |
| ArrayAlloc.InitializeBody32 | bdavm/src/cpu/x86/vm/c1_MacroAssembler_x86.cpp:183-233 | the same with words of four bytes, for even and odd numbers of them |
| ArrayAlloc.AllocateArray | bdavm/src/cpu/x86/vm/c1_MacroAssembler_x86.cpp:295-318 | on the fast path the aligned size is returned, the header stays and everything behind it is zero; on the slow one nothing changes |
| TypeProfile.ProfileAll | bdavm/src/cpu/x86/vm/interp_masm_x86.cpp:31-73 | from an empty cell, any series of observations leaves the null bit set iff a null was seen, the first klass in the klass field, and the unknown bit set iff two klasses differed |
| TypeProfile.ProfileObjType | bdavm/src/cpu/x86/vm/interp_masm_x86.cpp:31-73 | what one observation changes in any cell, through the exclusive or of klass and cell |
| TypeProfile.XorFields | bdavm/src/cpu/x86/vm/interp_masm_x86.cpp:43-60 | the exclusive or shows the status bits of the cell, and the second one gives the klass back |
| MapPhase.MapThread.Run | bdavm/benchmark/Microbenchmark/MapThread.java:43-63 | all maps are empty afterwards; a key of one map is in the unshared map, and a key of several is in the shared map with one pair of later and first value for every later map, in order |
| MapPhase.MapThread.Drain | bdavm/benchmark/Microbenchmark/MapThread.java:47-61 | taking the entries of one map in any order leads to the same final result maps |
| MapPhase.MapThread.FindMatchAndRemove | bdavm/benchmark/Microbenchmark/MapThread.java:65-109 | the key leaves all remaining maps, its values are appended as pairs, and the answer says whether there were any |
| MapPhase.NothingLost | bdavm/benchmark/Microbenchmark/MapThread.java:43-109 | for every key the values of all maps, in order, can be read back from the two result maps |
| MapPhase.StepOutcome | bdavm/benchmark/Microbenchmark/MapThread.java:47-61 | treating one entry does not change what any key ends up with |

## Left out

- Floating point values: rounding, precision control, NaN and the values of the strictfp bias constants; operations are uninterpreted.
- Liveness and interval computation, and the contents of debug information: inputs, or not needed for the meaning of the code. Of debug information the model keeps the stack at which it is computed, from which handlers are allocated.
- The moment at which handlers are allocated: the code does it in the middle of a move to or from memory or a call, the model afterwards, from the stack recorded at that point.
- Exceptions raised behind the first branch of a block: no FPU operation is there, and the stack is already the successors'.
- lir_assert, FPU operations outside the allocator's switch statements, and the trace output: they add no case to the proofs.
- The code of stubs: a branch to a stub ends an execution or is not taken, and the way back from a stub is not followed.
- The instructions behind sin, cos, tan, exp and pow: each is one step that needs the scratch slots the allocator provides.
- Biased locking, monitor inflation, the slow paths and null checks of lock_object: a jump to the slow case leaves the protocol.
- Memory ordering weaker than one step after the other; the fast paths rely on locked compare-and-swap.
- Relocation records, labels, code buffers and most one-line emitters; the displacement and the correction they use are parameters.
- Assertions of locate_operand that hold in debug builds only, and the contents of VEX prefixes: the model follows the product build.
- The 32-bit forms of emit_operand and locate_operand: addresses and decoding are modelled for 64-bit mode.
- try_allocate and initialize_header: memory for an array is given, and its header words are not written.
- Concurrent updates of the profile cell: they are not synchronised, and only a series of observations is claimed.
- The statistics of MapThread, ReduceThread and the other benchmark classes: timing, input and output.
- Reach.Reachable: addresses are integers, so 64-bit overflow of the differences is not modelled.
- ArrayAlloc.AllocateArray: the object starts at the first word of the given memory, where the code works relative to a register.
- TypeProfile.ProfileObjType: both reads of the cell see the same value, because no other thread is modelled.
