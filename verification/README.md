# A verified model of the Apex compiler's optimizer and front end

Apex compiles a small dynamic language to register bytecode. Between the parser and the virtual machine sit
passes that rewrite loops, pick registers, cache values while code is emitted, and edit the finished bytecode.
This project models those passes and proves what each of them must keep.

The parts, from the bytecode upwards:

- `Bytecode`, `Machine`, `Chunk`: instructions, constants and opcode tables; a small-step machine with
  registers, globals, an argument stack, loop iterators and a call stack; the chunk whose arrays the passes edit
  in place. What a data opcode computes (arithmetic, comparison, tables, builtins) is a parameter `Interp` of the
  machine, so every theorem about runs holds whatever those opcodes do. A constant operand is seen as the deep
  tree it denotes, an address operand only decides where control goes. Which operand of an opcode is an address, a
  constant or a callee the machine says for itself, apart from the tables that the passes consult.
- `JumpThreading`, `Compaction`, `PassPipeline`, `ConstantPool`, `DeadStores`: the passes on finished bytecode.
- `ValueNumbering`: the cache of computed values kept while code is emitted.
- `LinearScan`, `Liveness`, with `Bodies` for the bodies they look at: live ranges and registers. `Counting` and
  `Sequences` hold what several passes share.
- `ConstantFacts`, `ConstantFolding`, `Unswitching`, `InductionVariables`: lowering of branches and loops.
- `Polynomials`, `SymbolicValues`, `SymbolicLoop`, `LateReads`: folding a whole constant-range loop to its final
  values.
- `MatchDispatch`: jump tables and hash switches against the plain chain of checks.
- `PrattParser`, `Grouping`, `Derivations`, `SymbolTable`: the expression parser, how it groups operators and what it
  accepts, and the scoped symbol table.

Code that the repository writes as loops over arrays, cursors and growing tables is modelled as methods and
classes proved against specification functions; the results are then lemmas about those functions. `dafny verify
dfyconfig.toml` checks everything.

## What does not hold

Some of the passes are sound only under a side condition, and a few promises fail. The code is modelled as it
is; each failure has a concrete instance and an exact condition, short of the one gap named with the folded loops.

- Dead stores (`DeadStores.ScanPassesBranchIff`, `DeadStores.HiddenBranchLosesStore`, `DeadStores.HiddenIffShows`):
  the scan treats every branch as reading all registers except JUMP_IF_NONE, JUMP_IF_NOT_NONE, SWITCH_STR and
  SWITCH_NUM. Around each of these four a live store is removed and the value returned is lost; a branching opcode
  can make elimination visible if and only if it is one of them.
- Number switches (`MatchDispatch.NumSwitchIsChainIff`, `MatchDispatch.NumSwitchMissesACase`): the table
  builder scrambles the hash once more (source/compiler/codegen_match.c:84-92) than the machine's lookup does
  (source/core/vm.c:2825-2850), so for doubles the switch agrees with the chain just when, at the table size chosen
  for the cases, each case's two hashes fall in the same slot or its body is the fallback. The four halves 0.5 .. 3.5
  get a switch with 16 slots on which 1.5 is missed.
- Folded loops, multiplications (`SymbolicLoop.FoldedEnds`, `SymbolicLoop.OneFactorShort`): a multiplicative
  accumulator is evaluated one factor short, which shows unless its first value is 0 or its factor 0 or 1; the loop
  variable is left one step beyond the value the machine's loop leaves.
- Folded loops, later reads (`SymbolicLoop.LaterReadsGoWrong`, `LateReads.LateReadsIff`, `LateReads.EveryRangeIff`): a
  body that reads a name assigned later in it is resolved as if the order did not matter. For bodies without
  accumulators whose products stay within degree 3, take the resolution that reads later targets one turn late. A
  range of at least as many turns as statements ends right if and only if the two resolutions have the same values at
  its end; every range and every start end right if and only if the two find the same forms and the first turn does
  not see what later targets held before the loop. For a single range of fewer turns only the second condition is
  known to be enough.
- Value numbering across unseen stores (`ValueNumbering.UnseenWriteIff`, `ValueNumbering.UnseenWriteKeepsIff`): five
  storing opcodes are missing from the write table. The entries kept across such a store stay right, whatever is
  computed and read, if and only if the store touches no live entry's result or operand.
- Value numbering in match bodies (`ValueNumbering.BodyStartCleanIff`, `ValueNumbering.CaseBodyStartsStale`): a case
  body that always exits leaves its entries live for the next one. What is read from their registers is right behind
  every dispatch if and only if the cache is empty there; in the instance, a match on 1, 2, 3, the second body copies
  0 where the sum is 3.
- Unswitching (`Unswitching.OmittedElseAgreesIff`, `Unswitching.OmittedElseLosesVariable`): when the else loop is left
  out, the loop variable is not set on the side that skips the loop. The two agree if and only if the condition holds
  or the loop header, run to its end, leaves the variable as it was; everything else always agrees.
- Dangling operators (`Derivations.AcceptedDerives`, `Derivations.DanglingOperator`): a binary operator or an else with
  nothing after it on its line is accepted, the operator dropped and the branch left absent. It is the only way in
  which input without a reported error can fall short of the grammar.
- The perfect-hash search (`MatchDispatch.FindPerfectAddend`) tries 65536 addends, but XOR keeps collisions, so
  it succeeds with addend 0 or never.

## Model

| member | source | states |
|---|---|---|
| `JumpThreading.ThreadJumps` | source/compiler/opt_jump_targets.c:57-124 | rewriting operands and tables in place, each jump against the partly rewritten code, leaves the chunk with every address threaded |
| `JumpThreading.ThreadTargetReaches` | source/compiler/opt_jump_targets.c:43-55 | in code some of whose jumps are already rewritten, the address followed to is reached from the old one by unconditional jumps of the original code alone, jump cycles included |
| `JumpThreading.ThreadThreads` | source/compiler/opt_jump_targets.c:57-124 | the whole pass moves every operand, jump-table and switch-table address only along unconditional jumps of the original program |
| `JumpThreading.ThreadedStep` | source/compiler/opt_jump_targets.c:57-124 | one step of the threaded program is one step of the original followed by some number of jumps |
| `JumpThreading.ThreadedRun` | source/compiler/opt_jump_targets.c:57-124 | the state after n threaded steps is a state of the original, reached no sooner |
| `JumpThreading.ThreadedSees` | source/compiler/opt_jump_targets.c:57-124 | what the original has computed after n steps the threaded program has computed after at most n |
| `JumpThreading.ThreadingPreservesRuns` | source/compiler/opt_jump_targets.c:57-124 | for every program, start and final state: the threaded program stops there exactly when the original does |
| `JumpThreading.ThreadingKeepsPace` | source/compiler/opt_jump_targets.c:57-124 | the two directions above for runs that never stop |
| `JumpThreading.ThreadedToEnd` | source/compiler/opt_jump_targets.c:43-124 | every address from which at most 32 jumps, none of them a placeholder, lead to something other than a jump ends up there, in the code and in every table |
| `Compaction.MarkRemovable` | source/compiler/opt_bc_dce.c:80-114 | the marking passes reach the fixed point: exactly the `MOVE r,r` and the jumps to the next kept instruction are marked, though each jump is judged on marks that are still growing |
| `Compaction.CompactBytecode` | source/compiler/opt_bc_dce.c:80-174 | shifting the code and renumbering operands, function entries, jump tables and switch tables in place gives the compacted program |
| `Compaction.NothingLeft` | source/compiler/opt_bc_dce.c:80-174 | nothing in the compacted program is removable |
| `Compaction.CompactedTight` | source/compiler/opt_bc_dce.c:80-114 | no MOVE of a register to itself and no JUMP to the next instruction is left |
| `Compaction.KeptInOrder` | source/compiler/opt_bc_dce.c:71-174 | a kept instruction stands at its new address with every operand as it was, except the one that is an address: the first of jumps and tests, the second of the range-loop steps, the third of the table-loop step; a function entry changes its address only |
| `Compaction.CompactIdempotent` | source/compiler/opt_bc_dce.c:80-174 | a second run changes nothing |
| `Compaction.DroppedStep` | source/compiler/opt_bc_dce.c:85-114 | running a removed instruction changes only the pc, moving it forward to an address with the same image, so removed instructions cannot run forever |
| `Compaction.KeptStepMatches` | source/compiler/opt_bc_dce.c:116-174 | at a kept instruction the two programs step alike under the address map, calls, returns and tables included |
| `Compaction.CompactForward` | source/compiler/opt_bc_dce.c:80-174 | every state of the original has its image in the compacted run |
| `Compaction.SkipDropped` | source/compiler/opt_bc_dce.c:85-114 | from every state finitely many steps lead to a kept instruction with the same image |
| `Compaction.CompactBackward` | source/compiler/opt_bc_dce.c:80-174 | every state of the compacted run is the image of a state of the original |
| `Compaction.CompactionPreservesRuns` | source/compiler/opt_bc_dce.c:80-174 | the compacted program stops in the images of the original's stopping states and in no others, return addresses on the call stack mapped too |
| `PassPipeline.PostPasses` | source/compiler/codegen.c:218-219 | the two passes in order turn the chunk into the compaction of the threaded program |
| `PassPipeline.PostPassesPreserveRuns` | source/compiler/codegen.c:218-219 | the finished chunk stops exactly where the emitted one does, under the composed address map |
| `PassPipeline.PostPassesKeepPace` | source/compiler/codegen.c:218-219 | what either computes at some point of any run, stopping or not, the other computes too |
| `PassPipeline.AllPasses` | source/compiler/codegen.c:217-219 | renumbering, threading and compaction in order turn the chunk into the compacted, threaded, renumbered program, for the least closed live set |
| `PassPipeline.AllPassesPreserveRuns` | source/compiler/codegen.c:217-219 | after all three the chunk stops exactly where the emitted one does, under the composed address map |
| `ConstantPool.MarkRoots` | source/compiler/opt_bc_dce.c:265-296 | a constant is marked at the start exactly when the code names it |
| `ConstantPool.PendingFits` | source/compiler/opt_bc_dce.c:298-334 | pending entries are distinct and marked, so an unmarked constant always finds room in the worklist buffer |
| `ConstantPool.Propagate` | source/compiler/opt_bc_dce.c:298-334 | the worklist loop ends with the least set that holds the roots and is closed under table and string-switch references, without overflowing its buffer |
| `ConstantPool.CompactFunctions` | source/compiler/opt_bc_dce.c:219-261 | calls, function constants and the function table are renumbered in place to drop the unused functions |
| `ConstantPool.CompactConstants` | source/compiler/opt_bc_dce.c:336-428 | pool operands, packed ones included, and references inside live constants are renumbered and the pool shifted in place |
| `ConstantPool.CompactFunctionsAndConstants` | source/compiler/opt_bc_dce.c:218-429 | the whole pass drops exactly what is outside the least closed live set |
| `ConstantPool.DenoteRenumbered` | source/compiler/opt_bc_dce.c:336-426 | a live constant's new index denotes the same deep tree as the old one, to every depth, tables and switches nested in each other included |
| `ConstantPool.NamedConstantKept` | source/compiler/opt_bc_dce.c:265-345 | the constant an instruction names to the machine, in whichever operand its opcode has it, is live, and its renumbered operand names a constant with the same tree |
| `ConstantPool.StepRenumbered` | source/compiler/opt_bc_dce.c:218-429 | each step from each state is the same in both programs |
| `ConstantPool.RenumberPreservesRuns` | source/compiler/opt_bc_dce.c:218-429 | given a function set covering the calls and live function constants, every run is the same state by state |
| `DeadStores.DceLocalRange` | source/compiler/opt_bc_dce.c:38-68 | the range is rewritten store by store as specified, nothing else changes, and the result counts the changed instructions |
| `DeadStores.StoreStaysIff` | source/compiler/opt_bc_dce.c:38-68 | in a range ending in a terminator a pure store at or above the floor stays if and only if a later instruction of the range, not a no-op, reads its register before one overwrites it, all judged on the code as it came; everything else stays |
| `DeadStores.PureIff` | source/compiler/opt_peephole.c:9-29 | the purity table holds the moves, the loads of globals and the data opcodes with a result and no stacked arguments, but for three of these |
| `DeadStores.ReadsRegIff` | source/compiler/opt_peephole.c:31-84 | where the reading table tells registers apart it names what the machine looks at, and the unused third operand of MOVE and NEG besides |
| `DeadStores.TerminatorIff` | source/compiler/opt_bc_dce.c:17-28 | the terminators are the opcodes after which no machine, whatever its data opcodes do, goes on to the next instruction, into a call or through a table |
| `DeadStores.ScanPassesBranchIff` | source/compiler/opt_peephole.c:31-84 | a branching opcode can pass the forward scan exactly when it is one of four hidden ones; every other branch is a barrier |
| `DeadStores.RelStep` | source/compiler/opt_bc_dce.c:38-68 | one step with and without a killed store keeps the two states equal up to the dead register, in the current frame and in every suspended one |
| `DeadStores.RelRun` | source/compiler/opt_bc_dce.c:38-68 | so does every run, recursive calls into the same range included |
| `DeadStores.KillFromPreserves` | source/compiler/opt_bc_dce.c:38-68 | killing stores one after the other, each judged on code already rewritten, cannot be observed |
| `DeadStores.EliminationPreservesRuns` | source/compiler/opt_bc_dce.c:38-68 | on ranges without hidden branches whose pure opcodes have no other effect: after any number of steps pc, return addresses, globals, pushed arguments, iterators, output and the value being returned are unchanged |
| `DeadStores.HiddenBranchLosesStore` | source/compiler/opt_peephole.c:75-76 | with any of the four hidden branches in the range, switches over 16 slots among them, a program that returned 1 returns none |
| `DeadStores.HiddenIffShows` | source/compiler/opt_peephole.c:31-84 | some range with a given branching opcode as its only branch, its pure opcodes without other effect, has an observable difference after elimination if and only if the opcode is hidden |
| `ValueNumbering.Generator.Lookup` | source/compiler/opt_lvn.c:8-19 | the loop returns the first entry with the key, or -1 |
| `ValueNumbering.FindIff` | source/compiler/opt_lvn.c:8-19 | the first entry with the key decides, and -1 means that none has it |
| `ValueNumbering.Generator.Add` | source/compiler/opt_lvn.c:21-32 | in-place results and a full table record nothing; otherwise the entry is appended |
| `ValueNumbering.RecordedIff` | source/compiler/opt_lvn.c:21-32 | recording loses nothing, and the new entry is there unless its result is one of its inputs or sixteen entries are |
| `ValueNumbering.Generator.RemoveIf` | source/compiler/opt_lvn.c:35-91 | swap-removal re-examines the moved entry and leaves exactly the entries without the property |
| `ValueNumbering.Generator.OnEmit` | source/compiler/opt_lvn.c:47-91 | which entries each opcode drops |
| `ValueNumbering.Generator.EmitInstruction` | source/compiler/codegen.c:12-51 | appends the instruction with its address resolved and empties or filters the cache accordingly |
| `ValueNumbering.EmitKeepsIff` | source/compiler/opt_lvn.c:47-91 | an entry survives an emission if and only if the instruction is no jump and no branch to a known address, runs no other code, stores neither the global nor into the table it was read from, and is not known to write one of its registers |
| `ValueNumbering.EmitResolves` | source/compiler/codegen.c:12-51 | an emitted branch goes to the end of the jumps its address starts, when at most sixteen lead there; nothing else changes |
| `ValueNumbering.Generator.PatchJump` | source/compiler/codegen_internal.h:153-160 | patching sends the jump to the current end or an earlier address and empties the cache |
| `ValueNumbering.Generator.EmitLoopHead` | source/compiler/codegen_for.c:862-870 | a loop test is emitted at a recorded address and the cache is empty behind it |
| `ValueNumbering.LiveEntriesHold` | source/compiler/opt_lvn.c:8-91 | after every legal history of emissions, loop heads, forward and backward patches, loop tops, dispatches, clean case bodies and recordings, on every path from the entry to the current end, each live entry's register holds what its operation would compute there |
| `ValueNumbering.ReuseEqualsRecompute` | source/compiler/codegen_expr.c:968-1049 | on every such path, copying the register of a cache hit into the destination has the effect of computing the operation |
| `ValueNumbering.UnseenWriteIff` | source/compiler/opt_lvn.c:93-116 | the opcodes that store into a register without the write table saying so are exactly five |
| `ValueNumbering.UnseenWriteKeepsIff` | source/compiler/opt_lvn.c:47-116 | all five unseen stores keep every entry; all entries stay right under every interpretation if and only if the store touches none of them |
| `ValueNumbering.BodyStartCleanIff` | source/compiler/codegen_match.c:165-213 | behind a dispatch the registers of all live entries read as the values their operations compute, on every path and for every interpretation, if and only if the cache is empty there |
| `ValueNumbering.EntryIsStale` | source/compiler/codegen_match.c:177-188 | for every single entry still live at a body start there is a dispatch to it after which its register is set to another value than its operation computes |
| `ValueNumbering.CaseBodyStartsStale` | source/compiler/codegen_match.c:177-188 | a match on 1, 2, 3 that does get a jump table: in the second body the cache offers r2 for r0 + r1, the copy gives 0 and the addition 3 |
| `LinearScan.SortSlots` | source/compiler/opt_linear_scan.c:60-74 | the insertion sort orders the slots by first position, unused ones last, losing none |
| `LinearScan.ReleaseDead` | source/compiler/opt_linear_scan.c:93-98 | a register is freed exactly when its holder's range ended before the new one begins |
| `LinearScan.LowestFree` | source/compiler/opt_linear_scan.c:99-102 | the lowest free register, or none if all are held |
| `LinearScan.PlaceSlot` | source/compiler/opt_linear_scan.c:88-128 | placing one more slot keeps the scan's invariant; a new highest register is handed out only when that many locals are live |
| `LinearScan.SomeRegisterFree` | source/compiler/opt_linear_scan.c:103-123 | the branch that would grow the arrays cannot be reached |
| `LinearScan.AssignRegisters` | source/compiler/opt_linear_scan.c:53-136 | overlapping used locals get different registers, none a parameter's; every local has the lowest register free when it begins; parameters keep theirs; unused ones get register 0; the highest register is needed at some position |
| `LinearScan.FirstFitUnique` | source/compiler/opt_linear_scan.c:65-123 | what AssignRegisters promises leaves no choice: two sound allocations in which every local has the lowest register free when it begins, ties going to the lower slot, are the same |
| `LinearScan.LiveFits` | source/compiler/opt_linear_scan.c:53-136 | no sound allocation has fewer registers than locals live at once |
| `LinearScan.ScanIsOptimal` | source/compiler/opt_linear_scan.c:53-136 | the register count is the parameter count plus the maximum number of body locals live at one position, and no sound allocation uses fewer |
| `Liveness.Touch` | source/compiler/opt_linear_scan.c:39-48 | the two arrays hold the first and the last position that touches each name |
| `Liveness.LivenessWalk` | source/compiler/opt_linear_scan.c:9-51 | the walk numbers the positions of the body and records the range of every name over them |
| `Liveness.RangeCovers` | source/compiler/opt_linear_scan.c:39-48 | a recorded range covers every position that touches the name, and its ends touch it |
| `Liveness.RangesApart` | source/compiler/opt_linear_scan.c:9-51 | names of consecutive statements, and of the two branches of an if, have ranges one after the other, so that they can share a register |
| `Liveness.LiveApart` | source/compiler/opt_linear_scan.c:53-136 | two names live at one position have different registers |
| `Liveness.SimHere` | source/compiler/opt_linear_scan.c:9-51 | a statement that is one position, a loop with all its turns included, runs alike on registers and on names |
| `Liveness.SimAcross` | source/compiler/opt_linear_scan.c:9-136 | so does a body, with registers handed on from names that are over to names that begin |
| `Liveness.RegistersActLikeNames` | source/compiler/opt_linear_scan.c:9-136 | called with its arguments, a surely assigned body of assignments, branches, loops and returns ends the same way, returns the same value and leaves the same world on registers as on names |
| `Liveness.AllocateLocals` | source/compiler/codegen_fn.c:295-315 | walk and scan together give a function registers on which that theorem holds, as few as possible |
| `Polynomials.ChooseNext` | source/compiler/opt_for_fold.c:139-143 | the row update of the binomial coefficients |
| `Polynomials.BinomialTheorem` | source/compiler/opt_for_fold.c:133-144 | the expansion of (a + m)^k the shift loop relies on |
| `Polynomials.Shift` | source/compiler/opt_for_fold.c:133-144 | the double loop yields, for a polynomial of any degree, coefficients whose value at every m is P(a + m) |
| `Polynomials.Horner` | source/compiler/opt_for_fold.c:114-125 | evaluation from the highest coefficient down is the value of the polynomial |
| `SymbolicValues.PowLawsMet` | source/compiler/opt_for_fold.c:114-125 | the laws assumed of C's `pow` are met by a power function on all reals |
| `SymbolicValues.ProductAt` | source/compiler/opt_for_fold.c:53-73 | the truncated product is exact at x just when the dropped terms vanish there |
| `SymbolicValues.Multiply` | source/compiler/opt_for_fold.c:53-73 | the two double loops give the product of two forms, which fails just for two geometric ones |
| `SymbolicValues.AddEval` | source/compiler/opt_for_fold.c:31-43 | two forms have a sum just when they do not have different ratios, and it has the sum of their values |
| `SymbolicValues.MulEval` | source/compiler/opt_for_fold.c:53-73 | two forms have a product just when not both are geometric, and it has the product of their values when its degree fits |
| `SymbolicValues.CubicSum` | source/compiler/opt_for_fold.c:127-149 | the power-sum formulas give the finite sum of every cubic from any start |
| `SymbolicValues.Geo1Closed` | source/compiler/opt_for_fold.c:150-164 | the closed form of the sum of m r^m, multiplied out so that r = 1 is covered |
| `SymbolicValues.GeoSum` | source/compiler/opt_for_fold.c:150-164 | the geometric part of a sum splits into the two closed sums |
| `SymbolicValues.SvSum` | source/compiler/opt_for_fold.c:127-166 | for every cubic plus (linear in i) times r^i, r = 1 included and r = 0 from a start that is not negative, the result is the finite sum; with higher geometric parts it is 0 |
| `SymbolicValues.SvCumsum` | source/compiler/opt_for_fold.c:168-197 | succeeds exactly for degree at most 2 without geometric part, and then equals the finite sum at every i from a - 1 on |
| `SymbolicValues.GeoValEval` | source/compiler/opt_for_fold.c:199-207 | the form of a repeated multiplication is the value on entry to turn i |
| `ConstantFolding.FoldNumberSound` | source/compiler/opt_const_fold.c:17-64 | a folded number is the expression's value in every state the facts are true of; division and remainder by zero never fold |
| `ConstantFolding.FoldBoolSound` | source/compiler/opt_const_fold.c:66-101 | the same for conditions |
| `ConstantFolding.FoldNumberIff` | source/compiler/opt_const_fold.c:17-64 | an expression folds if and only if every name it reads is known and no divisor comes out 0, and then to its value |
| `ConstantFolding.FoldBoolIff` | source/compiler/opt_const_fold.c:66-101 | a condition folds if and only if all it compares does, both sides of every connective included, and then to its truth |
| `ConstantFolding.FmodIs` | source/compiler/opt_const_fold.c:48-50 | the remainder folded is what whole multiples of the divisor leave: smaller than the divisor and of the sign of the dividend |
| `SymbolicLoop.ClassifiedValue` | source/compiler/opt_for_fold.c:239-274 | what each kind of assignment adds to or multiplies into its target |
| `SymbolicLoop.ClassifyIff` | source/compiler/opt_for_fold.c:239-274 | additions to the target, and its multiplications by what the facts settle, are told apart exactly, the target standing on either side but not both |
| `SymbolicLoop.SymRight` | source/compiler/opt_for_fold.c:78-112 | a form found for an expression has its value on the turn and its degree |
| `SymbolicLoop.TurnState` | source/compiler/opt_for_fold.c:276-310 | what a statement reads on turn n: this turn's values of earlier targets, last turn's of the others |
| `SymbolicLoop.Accumulated` | source/compiler/opt_for_fold.c:250-258 | after n turns an additive accumulator holds its first value plus the finite sum of its form |
| `SymbolicLoop.ResolveForms` | source/compiler/opt_for_fold.c:276-310 | every form found gives its target's value after every turn, from whatever state the loop starts; in a foldable loop only sums nobody reads stay without one; without accumulators the forms are those of the repeated passes over the body |
| `SymbolicLoop.ResolutionStuck` | source/compiler/opt_for_fold.c:276-310 | for bodies without accumulators the passes end only when no statement left has a form on the forms found |
| `SymbolicLoop.FinalOf` | source/compiler/opt_for_fold.c:637-665 | the final value is right just when the target is harmless, the numeric fallback for degree-3 increments included |
| `SymbolicLoop.OneFactorShort` | source/compiler/opt_for_fold.c:637-641 | one factor too few shows unless the value is 0 or the factor 1 |
| `SymbolicLoop.FoldedEnds` | source/compiler/opt_for_fold.c:606-665 | off the loop variable, folded code and executed loop end in the same state if and only if every multiplication is harmless; the loop variable ends one higher |
| `SymbolicLoop.TryFoldLoop` | source/compiler/opt_for_fold.c:517-665 | declines no foldable loop; when it folds a regular one, the ends agree as stated; for a body without accumulators, regular or not, exactly when it folds and to which values |
| `SymbolicLoop.LaterReadsGoWrong` | source/compiler/opt_for_fold.c:276-310 | a loop that reads a name assigned later in its body is folded, to a value the loop does not leave |
| `LateReads.ResolutionsAlike` | source/compiler/opt_for_fold.c:276-310 | reading later targets late finds forms for the same targets as the passes over the body do |
| `LateReads.LateAfter` | source/compiler/opt_for_fold.c:276-310 | its forms are the values the loop leaves after any turn from the number of statements on, from every start |
| `LateReads.LateReadsIff` | source/compiler/opt_for_fold.c:637-641 | a folded range of at least as many turns as statements ends like the loop, from a given start, if and only if the two resolutions have the same values at its end |
| `LateReads.EveryRangeIff` | source/compiler/opt_for_fold.c:276-310 | a folded body is folded right over every range and from every start if and only if the two resolutions find the same forms and the first turn gives their values from every start |
| `LateReads.LaterReadCovered` | source/compiler/opt_for_fold.c:276-310 | the failing loop meets the hypotheses of these theorems |
| `MatchDispatch.TryJumpTable` | source/compiler/codegen_match.c:126-237 | a table is built exactly for at least three distinct integers close together; each case's slot holds its target and every hole the fallback |
| `MatchDispatch.DenseIff` | source/compiler/codegen_match.c:126-160 | close together means: three or more different 32-bit integers, no two of them 512 or sixteen times the number of cases apart |
| `MatchDispatch.WrapHarmless` | source/core/vm.c:2775-2793 | the offset computed with 32-bit wrap-around and compared unsigned is in the table exactly for subjects in range |
| `MatchDispatch.JumpTableIsChain` | source/compiler/codegen_match.c:126-237 | the table selects what the first-match chain selects, for every subject |
| `MatchDispatch.XorKeepsCollisions` | source/compiler/codegen_match.c:60-74 | XOR by any addend separates no two masked hashes |
| `MatchDispatch.FindPerfectAddend` | source/compiler/codegen_match.c:60-74 | succeeds exactly when the masked hashes are pairwise distinct, with addend 0 |
| `MatchDispatch.ChooseMask` | source/compiler/codegen_match.c:259-273 | a size is found exactly when one of those tried separates the hashes, and it is the first of them |
| `MatchDispatch.TriedIff` | source/compiler/codegen_match.c:259-273 | the sizes tried are the powers of two from 8 with four slots a case or more, up to 4096 or else the least |
| `MatchDispatch.SizeChosen` | source/compiler/codegen_match.c:259-273 | of these the least that separates the hashes is taken |
| `MatchDispatch.SwitchableIff` | source/compiler/codegen_match.c:240-273 | a hash switch takes four or more strings, or four or more numbers with different bits, that some size tried separates |
| `MatchDispatch.SampleHashes` | source/compiler/codegen_match.c:53-92 | the three hashes on 0.1 and on the text apex |
| `MatchDispatch.BuildTable` | source/compiler/codegen_match.c:275-285 | no case overwrites another: every case's slot, within the slots allocated, holds its hash, key and target, the other slots are blank |
| `MatchDispatch.TryStrSwitch` | source/compiler/codegen_match.c:240-354 | a string switch is built exactly for at least four strings some tried size separates |
| `MatchDispatch.StrSwitchIsChain` | source/compiler/codegen_match.c:240-354 | it selects what the chain selects, for every subject, misses going to the fallback |
| `MatchDispatch.RepeatedStringsFallBack` | source/compiler/codegen_match.c:259-273 | a repeated string case never gets a switch, at any size |
| `MatchDispatch.TryNumSwitch` | source/compiler/codegen_match.c:357-476 | a number switch is built exactly for at least four distinct numbers some tried size separates, with the first such size, and each case in its slot |
| `MatchDispatch.NumSwitchIsChainIff` | source/compiler/codegen_match.c:76-92 | over doubles it selects what the chain selects for every subject if and only if, at the size chosen for the cases, builder and machine agree on the slot of every case whose body is not the fallback |
| `MatchDispatch.NumSwitchMissesACase` | source/core/vm.c:2825-2850 | the table the compiler builds for 0.5, 1.5, 2.5, 3.5 makes the machine take the fallback for 1.5 |
| `MatchDispatch.HalvesExist` | source/core/vm.c:2830-2836 | the encoding of all doubles, inverse to the binary64 format of IEEE 754, gives the four cases the bits used there |
| `MatchDispatch.MatchStatement` | source/compiler/codegen_match.c:478-540 | which of the four lowerings is chosen, and that it selects what the chain selects: for every subject, except that number switches do so over doubles and just under the condition above |
| `SymbolTable.ParserSymbols.IndexInScope` | source/core/parser.c:755-768 | the bucket search finds a declaration of the name in the scope if there is one |
| `SymbolTable.ParserSymbols.IndexRecursive` | source/core/parser.c:770-777 | the first link in the bucket is the last declaration in the arrays, as a reverse linear scan would find |
| `SymbolTable.ParserSymbols.EnterScope` | source/core/parser.c:2654 | opening a scope keeps the table valid and changes only the level of later declarations |
| `SymbolTable.ParserSymbols.ExitScope` | source/core/parser.c:779-834 | unlinking, compacting and invalidating leave a valid table that is a prefix of the old one |
| `SymbolTable.ParserSymbols.Declare` | source/core/parser.c:836-867 | appends and links the symbol unless the scope already has it, growing the arrays when full |
| `SymbolTable.ExitTruncates` | source/core/parser.c:803-822 | scope levels are sorted, so leaving a scope only cuts off the end |
| `SymbolTable.IndexShrinks` | source/core/parser.c:783-801 | with the scope's links gone the index is right for what remains |
| `SymbolTable.NoneStale` | source/core/parser.c:824-831 | the invalidation sweep finds no stale link |
| `SymbolTable.RunRefines` | source/core/parser.c:756-867 | after every sequence of entries, declarations and exits the table holds what a stack of scope maps holds |
| `SymbolTable.LookupFindsInnermost` | source/core/parser.c:770-777 | after every such sequence the lookup finds the innermost declaration in scope, or none when there is none |
| `PrattParser.ParseInfix` | source/core/parser.c:2161-2250 | each turn of the operator loop consumes tokens, which is why the parser terminates |
| `PrattParser.Parser.ParsePrec` | source/core/parser.c:2316-2370 | the cursor-moving loop computes the specified result and leaves the cursor behind it |
| `PrattParser.Parser.ParsePref` | source/core/parser.c:2091-2111 | atoms, unary minus and parentheses, errors included |
| `PrattParser.Parser.ParseInf` | source/core/parser.c:2189-2250 | calls, indexing, ternaries and binary operators, errors included |
| `PrattParser.ReadsBare` | source/core/parser.c:2316-2370 | an unparenthesised operand is read to its last token and the loop goes on with it as left operand |
| `PrattParser.ReadsWhole` | source/core/parser.c:2316-2370 | a printed expression is read whole when what follows binds no tighter than the context |
| `PrattParser.RoundTrip` | source/core/parser.c:2466-2472 | every tree, printed with parentheses only around operands that bind too loosely, is parsed back without error: all binary levels, left associativity, unary minus, calls, indexing and ternaries |
| `PrattParser.PrintInjective` | source/core/parser.c:1531-1550 | different trees have different token strings |
| `Grouping.Pairs` | source/core/parser.c:1531-1550 | with the operators written out in six groups, a p b q c reads as a p (b q c) if q is of a later group and as (a p b) q c otherwise, for all operands and operators |
| `Grouping.MinusFirst` | source/core/parser.c:2106-2113 | unary minus takes its operand before every binary operator |
| `Grouping.CallFirst` | source/core/parser.c:2195-2196 | a call belongs to the operand next to it, not to the operation or the minus before that |
| `Grouping.IndexFirst` | source/core/parser.c:2197-2198 | so does an index |
| `Grouping.TernaryLast` | source/core/parser.c:2207-2235 | a ternary takes whole operations as its value and its condition |
| `Grouping.TernaryElse` | source/core/parser.c:2207-2235 | after else it takes the operators of every group but the first |
| `Derivations.AcceptedDerives` | source/core/parser.c:2091-2370 | tokens read without an error derive the tree made of them in a grammar without precedences: parentheses and brackets closed, arguments between commas, both branches of a ternary; only a line end excuses a missing right operand |
| `Derivations.DanglingOperator` | source/core/parser.c:2252-2254 | a binary operator at the end of the input is consumed and nothing is reported |
| `Unswitching.InvariantMeans` | source/compiler/codegen_for.c:12-50 | the syntactic check accepts a condition exactly when it makes no calls and reads nothing the loop assigns |
| `Unswitching.SafeBodyIff` | source/compiler/opt_licm.c:73-140 | only a call, an await or an indexed assignment anywhere in it makes a body unsafe |
| `Unswitching.FindUnswitchable` | source/compiler/codegen_for.c:53-83 | finds the first branch whose condition is invariant, and refuses only unsafe or too long bodies and those without one |
| `Bodies.AssignedIff` | source/compiler/opt_licm.c:143-180 | the names a body assigns are the targets of its assignments and the variables of its loops, wherever they stand |
| `Unswitching.Unswitch` | source/compiler/codegen_for.c:85-142 | what is emitted, with the else loop left out exactly when there is no else branch and no other statement |
| `Unswitching.BodyAgrees` | source/compiler/codegen_for.c:85-142 | one pass of the body takes the branch the condition had before the loop |
| `Unswitching.UnswitchingPreserves` | source/compiler/codegen_for.c:85-142 | the loop and the two guarded loops end the same way in the same state, for every number of turns, with breaks, continues and returns |
| `Unswitching.OmittedElsePreserves` | source/compiler/codegen_for.c:85-142 | leaving out the else loop changes nothing but the loop variable |
| `Unswitching.OmittedElseAgreesIff` | source/compiler/codegen_for.c:95-121 | the loop variable agrees too if and only if the condition holds or the loop header leaves the variable as it was |
| `Unswitching.OmittedElseLosesVariable` | source/compiler/codegen_for.c:95-121 | a loop over 1, 2 leaves its variable at 2 where the emitted code leaves it unset |
| `InductionVariables.CollectBody` | source/compiler/codegen_for.c:295-391 | gathers each distinct `var op c` of the body outside nested loops once, all of them unless the table is full |
| `InductionVariables.CandidateIff` | source/compiler/codegen_for.c:295-391 | the candidates are exactly what some expression of the body, outside nested loops, adds to the variable or multiplies it by, in either order |
| `InductionVariables.NoneLeft` | source/compiler/codegen_expr.c:690-720 | no candidate that has an accumulator is left in the reduced body outside nested loops |
| `InductionVariables.ReduceLoop` | source/compiler/codegen_for.c:734-750 | the loop as emitted, reduced or not, runs like the loop as written in every state the facts hold in |
| `InductionVariables.FoldSound` | source/compiler/codegen_for.c:314-326 | what counts as a constant has that value throughout the loop |
| `InductionVariables.SubstEval` | source/compiler/codegen_expr.c:690-720 | an expression with accumulators put in has the value of the original while they are right |
| `InductionVariables.SubstExec` | source/compiler/codegen_expr.c:690-720 | so does a whole body, nested control flow included |
| `InductionVariables.NoContinue` | source/compiler/codegen_for.c:145-174 | the syntactic check rules out continuing this loop |
| `InductionVariables.HasContinueIff` | source/compiler/codegen_for.c:145-174 | and it finds nothing but a continue of this loop |
| `InductionVariables.TurnsReduced` | source/compiler/codegen_for.c:818-912 | at the start of every turn each accumulator equals `var op c`, so the reduced loop runs like the original from any turn on |
| `InductionVariables.ReductionPreserves` | source/compiler/codegen_for.c:818-912 | the reduced loop ends like the original with the same variables and world, for every constant step |
| `ConstantFacts.Locals.Restore` | source/compiler/opt_branch_merge.c:26-33 | the facts are those of the snapshot again |
| `ConstantFacts.Locals.Merge` | source/compiler/opt_branch_merge.c:35-52 | exactly the facts on which both snapshots agree remain |
| `ConstantFacts.Locals.InvalidateLoop` | source/compiler/opt_licm.c:444-454 | exactly the facts about assigned names and the loop variable are dropped |
| `ConstantFacts.Locals.EmitStmt` | source/compiler/codegen_stmt.c:199-296 | emission with the facts kept in arrays gives the code and the facts specified |
| `ConstantFacts.Locals.EmitBranches` | source/compiler/codegen_if.c:94-234 | an if/else-if/else chain with constant conditions dropped and facts merged at its end |
| `ConstantFacts.TailForgets` | source/compiler/codegen_if.c:94-234 | merging never adds a fact |
| `ConstantFacts.TailPreserves` | source/compiler/codegen_if.c:94-234 | a chain with decided branches dropped runs like the original, and the merged facts hold wherever it ends |
| `ConstantFacts.EachPreserves` | source/compiler/codegen_for.c:614-667 | facts kept through a table loop hold on every turn and after it, breaks and continues included |
| `ConstantFacts.EmitPreserves` | source/compiler/codegen_if.c:94-234 | every fact holds in every run that reaches its point, so the emitted code returns what the source does |
| `ConstantFacts.EmitReduced` | source/compiler/codegen_if.c:94-234 | walking the emitted code with the facts at each point, known exactly after what they settle is assigned and after merges where all branches agree, meets no if whose first condition they settle |
| `ConstantFacts.DecidedIf` | source/compiler/codegen_if.c:95-110 | a chain whose first condition is settled leaves the code and the facts of the branch that its truth selects |
| `ConstantFacts.LoopForgets` | source/compiler/codegen_for.c:614-667 | a table loop gives up exactly the facts about names its source assigns and its variable |
| `ConstantFacts.AlwaysExitsIff` | source/compiler/codegen_stmt.c:582-610 | a statement counts as always exiting if and only if no choice of its conditions lets control past it |

## Left out

- The execution loop, just-in-time compiler, async scheduler, tokenizer, builtins, module loading, memory
  freeing, out-of-memory branches, error texts and line tables.
- Async call and await opcodes take part only as data opcodes with unknown results; a fresh frame's registers
  beyond its arguments are modelled as unset rather than stale.
- Floating point: numbers are exact reals or integers, without rounding, NaN, infinities or signed zero. C's
  `pow` is a parameter with the laws of exact powers, and the encoding of doubles one that inverts their decoding.
- The rebuilding of the jump-target bitset (source/compiler/opt_bc_dce.c:176-207), `mark_jump_target` and
  `code_has_jump_to`.
- PassPipeline.AllPassesPreserveRuns: of dce_functions_and_globals only the renumbering is modelled. The three rounds
  of function reachability (source/compiler/opt_bc_dce.c:432) and the removal of unused functions' bodies are not:
  the used set is given and must cover the direct calls and the live function constants.
- DeadStores.EliminationPreservesRuns: assumes that opcodes in the purity table have no effect but their
  result; for table-creating opcodes that means a heap in which unreachable tables cannot be told apart.
- ValueNumbering.LiveEntriesHold: covers arithmetic, immediate, load-constant and load-global entries; entries for
  table reads are not modelled, since what a table holds can change under them.
- ValueNumbering.Generator.EmitInstruction: without the peephole fusion of adjacent instructions and without the
  number and string caches, which are truncated beside the value cache at the same points.
- ValueNumbering.BodyStartCleanIff: the dispatch stands at the function's entry, so that it can be reached.
- Liveness.RegistersActLikeNames: match statements, nested functions and table literals are not statements or
  expressions of the model; operators and calls are uninterpreted but evaluate their operands in order.
- SymbolicLoop.TryFoldLoop: condition loops, dead table writes and mirroring to globals are not modelled.
- SymbolicLoop.FoldedEnds: asks for a regular loop (right-hand sides over the variable, known names and earlier
  targets, products of degree at most 3) and an end that is a whole number of steps away; a name the loop leaves
  alone keeps its value.
- SymbolicValues.MulEval: products beyond degree 3 lose their high terms in the code; ProductAt says when that
  shows.
- MatchDispatch.BuildTable: slots are a function from 32-bit indices rather than an allocated array; mixed
  patterns appear only as cases of the chain.
- SymbolTable.ParserSymbols.Declare: bucket chains are sequences rather than linked nodes, and types, constness
  and async marks of a symbol are one opaque value.
- SymbolicValues.SvSum: for ratio 0 and a negative start C's `pow` is infinite, and nothing is promised.
- LateReads.LateReadsIff: nothing is said of a single range of fewer turns than statements, of irregular bodies with
  accumulators, or of bodies in which a product goes beyond degree 3.
- PrattParser.Parser.ParsePrec: the depth and chain limits are not modelled.
- PrattParser.Parser.ParsePref: table literals, await and string interpolation are not modelled.
- PrattParser.Parser.ParseInf: member access and assignment inside expressions are not modelled.
- PrattParser.RoundTrip: over the expressions of the three methods above; that no printed pair of parentheses could
  be spared is not stated.
- Unswitching.UnswitchingPreserves: asks for effect-free bounds and conditions, as the pass's own safety check
  does for the body.
- InductionVariables.CollectBody: match statements are not statements of the model.
- InductionVariables.FoldSound: only literals, known names, sums and products fold here; ConstantFolding has the rest.
- InductionVariables.ReductionPreserves: over exact integers, for bodies that do not assign the folded names, which
  the compiler arranges by dropping facts at the loop head.
- Constant facts after numeric-range and condition loops, numeric and integer flags, copy propagation, unrolling,
  hoisting of invariant expressions, inlining, recursive-call folding and the remaining peephole rewrites.
