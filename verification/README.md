# eAccelerator, modelled and proved in Dafny

eAccelerator keeps compiled PHP scripts in shared memory. This project models the parts of it where a mistake would
change what a script does, lose memory or hand out the same memory twice, and proves what those parts promise.

* **The optimizer** (`optimize.c`): `Opcodes.dfy` and `Flat.dfy` give op arrays a meaning (a machine over temporaries
  that shows a trace of observable instructions), `Graph.dfy` gives the control-flow graph one. `BuildCfg.dfy`,
  `Marking.dfy`, `Preds.dfy`, `Rewrites.dfy`, `JumpRules.dfy`, `DeleteMerge.dfy`, `OptimizeJmp.dfy` and `EmitCfg.dfy`
  follow the passes, `Ways.dfy` is about where threading can make a jump lead, `Trails.dfy` about whole runs of
  `optimize_jmp`, and `Optimize.dfy` puts them together. `Polish.dfy`, `PolishedCode.dfy`, `ConstTests.dfy` and
  `IdleJumps.dfy` say in terms of instructions and edges what is left when `optimize_jmp` stops by itself, in the graph
  and in the op array made of it, and `Settling.dfy` when it does stop.
  `LiveVars.dfy`, `DeadResults.dfy`, `LiveLoops.dfy` and `LoopCheck.dfy` are `compute_live_var`; `Registers.dfy`,
  `Renumber.dfy`, `RegisterRuns.dfy`, `RegisterPressure.dfy` and `ReassignRegisters.dfy` are `reassign_registers`.
  `Driver.dfy` runs all of these passes one
  after the other. `Orderly.dfy` and `Splits.dfy` say which op arrays the driver is right for, `OrderlySteps.dfy`,
  `CleanedGraphs.dfy` and `CleanedRanges.dfy` that the passes keep what that means, and `OrderlySample.dfy` has such an
  op array with a loop and three kinds of `&&`. `Limits.dfy` and `LostLists.dfy` show which premises are needed.
  A claim about the machine holds for every `World`: whatever calls return, whichever way iterators branch, and
  whatever the pure instructions compute.
* **The image of a script** (`ea_store.c`, `ea_restore.c`): `Image.dfy` says when a region of memory holds a value, in
  terms of addresses, hash chains and lists. `ImageStore.dfy`, `ImageFixup.dfy`, `ImageRestore.dfy` and `ImageCode.dfy`
  are the passes that write it, relocate it and rebuild heap structures from it. `HashIndex.dfy` is about the hash
  tables in it, and `ImageScript.dfy` takes a script with all its functions, but without classes, the whole way.
  `Requests.dfy` has what the passes ask memory for; `ScriptSize.dfy`, `ScriptBill.dfy` and `ScriptPasses.dfy` compare
  the space `calc_size` foresees with the space used, and both with what can be read off the script.
* **The allocator** (`mm.c`): `Arena.dfy` on tiles, `FreeList.dfy` and `Allocator.dfy` on words of memory.
* **The script cache** (`eaccelerator.c`, `ea_info.c`): `Cache.dfy`, `CacheShape.dfy` and `CacheRuns.dfy` are a state
  machine with any number of processes, `CacheEntries.dfy` says what becomes of each entry, `CacheTable.dfy` has the
  linked lists and the loops, and `SharedMemory.dfy` runs cache and allocator together.
* **The spinlock** (`mm.c`): `Spinlock.dfy`.
* **The file filter** (`fnmatch.c`, `eaccelerator.c`): `Fnmatch.dfy`, `Spelling.dfy` and `Filter.dfy`. **The checksum**: `Crc32.dfy`.

The engine version is PHP 5.3 (`ZEND_ENGINE_2_3`). `dafny verify dfyconfig.toml` checks the whole project.

Where the code differs from what its documentation or a standard says, the model follows the code:

* A `]` right after `[` closes a bracket at once, so `[]...` matches nothing (`Glob.EmptyBracket`); section 3.13 of
  POSIX 1003.2-1992 makes such a `]` a member of the bracket. `Glob.SameReadingExactly` and `Glob.DiffersExactly` say
  exactly for which patterns this one rule makes a difference, to the reading and to the strings matched. The standard's
  character classes, and its reading of a `[` that opens no bracket as itself, are in neither reading.
* `mm_maxsize` is exact only if the largest bucket is a multiple of the alignment (`Arena.MaxSizeExact`), which it is in
  an arena whose end is aligned (`Arena.AlignedBuckets`).
* `eaccelerator_prune` and `eaccelerator_purge` do not look at use counts for missing or changed files and for removed
  entries; `CacheRuns.PruneSafeExactly` and `CacheRuns.PurgeSafeExactly` say exactly when that is harmless, and
  `CacheRuns.PruneFreesUsed` and `CacheRuns.PurgeFreesUsed` show runs from the empty cache in which it is not.
* The rewrite of `JMPZ_EX $x, next, $x` to `NOP` is right exactly when `$x` holds a Boolean (`Limits.SelfTestExact`);
  `Limits.SelfTestNeedsBooleans` has an op array in which it does not. So a test of a value that need not be a Boolean,
  as the compiler makes of `$a + 1 && f()`, must never come to jump to the next line. `BuildCfg.SelfTestsOk` says so of
  the op array, and `Ways.TestsApartStill` that no step changes it.
* `compute_live_var` marks nothing as global in a function that is a single block. If that block jumps to its own start,
  results that the next round reads are removed. `LiveLoops.LoopExactly` says exactly for which blocks that is harmless,
  and `Limits.OneBlockLoop` has an op array for which it is not.
* The predecessor lists do not always stay exact through `optimize_jmp`. They do exactly if no step enters a block that
  is out of use in a list (`Trails.TrailExactly`), and whatever they list has the edge. Code without a one-instruction
  block that branches to itself is not enough: `LostLists.ListsLost` has a compiled op array without one, at any time, in
  which a block takes itself out of use and is then entered. It is enough that no block in use is led to by itself alone
  (`Trails.NothingLost`), or that the flow has no cycle (`Trails.NoCycleNothingLost`).
* `optimize_jmp` stops when a round changes nothing, but taking the mark of a `break` off a JMP to a RETURN does not count
  as a change (optimize.c:1370-1371). When it stops by itself nothing is left to do except for such JMPs
  (`JmpOptimizer.Optimizer.OptimizeJmp`, `JmpOptimizer.MarkLeft`).
* `optimize_jmp` does not always stop. In flow without cycles it does, within a bound (`Settling.TrailLess`); but once a
  way out of a block leads to a block that is one JMP to itself, the loop at optimize.c:1303-1316 follows that JMP for
  ever (`Settling.NeverEnds`).
* What `optimize_jmp` leaves at rest has no jump to the next block, but blocks that nobody reaches from the entry may lie
  between; they go when the blocks are marked again, and then the jump leads to the next line. It cannot happen when all
  blocks left in use are reached (`IdleJumps.RestsIdle`). Blocks without instructions are another reason why two ways can
  lead to one line; the claims about lines (`PolishedCode.TrimAt`, `IdleJumps.NoIdleLines`) name them.
* `compute_live_var` makes a JMPZ of a JMPZ_EX whose result nobody needs, also after the last `optimize_jmp`. So the
  driver's result has no test of a constant if the op array has none that keeps its outcome (`ConstTests.NoneInCode`).

## Model

| member | source | states |
|---|---|---|
| Driver.OptimizeFunction | optimize.c:3533-3588 | the whole driver but the peephole pass, for op arrays whose self-tests are of Booleans or stay apart (`BuildCfg.SelfTestsOk`): run from the start of the function with its own, never more, temporaries, the new op array of an orderly op array shows exactly the traces of the old one in every world, however far the rewriting got, and has no more temporaries than globals with a register and locals in use at once; for any op array the result is what building, marking, steps of `optimize_jmp`, `compute_live_var`, marking again, the same once more, sweeping, `reassign_registers` and `emit_cfg` lead to, one after the other: the blocks reached from the entry, one directly behind the other; and if the last `optimize_jmp` stopped by itself, which it does within a bound where all jumps lead forward, it left a graph at rest, no line jumps to the next one if all blocks left in use were reached, and none decides on a constant if none did so and kept the outcome |
| OrderlyCode.StartsTame | optimize.c:3533-3545 | the graph of an orderly op array: blocks read only what every way to them has written, no temporary is made again after being read unless a test whose ways stay apart lies between, results flagged unused are unmarked, FE_FETCH follows FE_RESET, nothing but the last line lies behind a RETURN |
| OrderlySteps.TrailTame | optimize.c:517-1391 | every run of `optimize_jmp` keeps all of that |
| CleanedGraphs.CleanedTame | optimize.c:242-347 | and so does `compute_live_var` |
| CleanedGraphs.TameHarmless | optimize.c:160-347 | such a graph is none of the loops that `compute_live_var` breaks |
| CleanedRanges.LastRanges | optimize.c:3254-3405 | and after it block-local temporaries have one live range per block, so that `reassign_registers` is right |
| OrderlySample.SampleIsOrderly | optimize.c:3533-3545 | `foreach ($a as $b) echo $b() && $c();`, `if ($i == 1 && f()) echo 2;` and `echo $i++ && f();`, as compiled, meet every premise, with no temporary taken to be a Boolean |
| Splits.MoveSplit | optimize.c:517-1391 | no step of `optimize_jmp` takes away a test whose two ways stay apart, or lets its block go on behind it |
| Ways.TestsApartStill | optimize.c:951-963 | a change of the graph that sends jumps on over one-jump blocks only, keeps every self-test of a value that need not be a Boolean from jumping to the next block |
| BuildCfg.BuiltTests | optimize.c:2913-3078 | the same for the built graph, read off the op array |
| Trails.MoveOnward | optimize.c:517-1391 | every step of `optimize_jmp` is such a change |
| CleanedGraphs.CleanedKeepsInv | optimize.c:242-347 | removing dead results keeps layout, fall-through order, predecessor lists and typing, with no premise |
| Driver.SameFromStartByGraphs | optimize.c:3533-3588 | traces of op arrays from equivalent and then renumbered graphs |
| Optimize.OptimizeCode | optimize.c:3533-3588 | the driver with the jump passes alone, for op arrays whose self-tests are of Booleans or stay apart: the new op array shows exactly the traces of the old one, from every state, in every world, however far the rewriting got; it is the blocks of the last graph of three runs of steps that are reached from the entry, one directly behind the other, and the final predecessor lists are exact if no step of these runs enters a block that is out of use; when the second `optimize_jmp` stopped by itself, no line decides on a constant, no jump has both its ways to one line, or one to a JMP, or its second to a test of the same temporary, unless an empty block lies there, and none leads to the next line if all blocks left in use were reached; for code whose jumps all lead forward nothing is lost, all blocks are reached, and a budget is named that is enough for stopping |
| Optimize.ForwardsNoCycle | optimize.c:2913-2945 | code whose jumps lead forward has a flow without cycles |
| Optimize.EnoughIsDone | optimize.c:517-1391 | with that budget a call on such code stops by itself |
| Optimize.Remark | optimize.c:3546-3565 | `rm_bb` on every block and `mark_used_bb` again: a block is in use afterwards iff it was reachable, and is still reached; the behaviour stays, and exact predecessor lists stay exact |
| BuildCfg.Build | optimize.c:2913-2945 | a block starts at line 0 and exactly where some instruction makes one start; the blocks cover the code, each ends where the next starts, and its edges are those of its last instruction |
| BuildCfg.BuildTheorem | optimize.c:3047-3078 | after marking, the built graph satisfies the invariant, its predecessor lists are exact and it lies in the op array at its own lines |
| Marking.MarkUsedTheorem | optimize.c:357-420 | exactly the blocks reachable from the entry are marked; each edge between used blocks is recorded, once, and if nothing was recorded before, nothing else is |
| Marking.ReachableIsUsed | optimize.c:517-1355 | as long as the invariant holds no reachable block has been given up |
| Preds.RmBbFacts | optimize.c:445-466 | `rm_bb` takes the block out of the predecessor lists of its targets, and out of no other |
| Preds.RewireFacts | optimize.c:357-392 | dropping an edge with `BB_DEL_PRED` and `RM_BB` and adding one with `BB_ADD_PRED` keeps every edge of a used block recorded at a used target |
| Preds.RewireExact | optimize.c:357-392 | the lists stay exact iff nothing was added or the block did not remove itself on the way |
| Rewrites.RewriteKeepsInv | optimize.c:546-1206 | a rewrite of a block's last instruction keeps layout, fall-through order and predecessor lists |
| Rewrites.RewriteEquivalent | optimize.c:546-1206 | a rewrite whose new exit leads where the old one led, or one block further, changes no trace |
| JumpRules.JmpRuleSound | optimize.c:548-562 | a JMP to the next block may go |
| JumpRules.ThreadJmp1Sound | optimize.c:563-577 | a JMP to a block that is one JMP may go where that goes |
| JumpRules.ThreadJmp2Sound | optimize.c:1303-1316 | the same for the second target of conditional jumps |
| JumpRules.ThreadExtSound | optimize.c:741-751 | the same for the third target of JMPZNZ |
| JumpRules.ZnzRuleSound | optimize.c:578-730 | JMPZNZ with equal targets, a constant, a fall-through target, or through a second test of the same temporary |
| JumpRules.TestRuleSound | optimize.c:752-950 | JMPZ and JMPNZ: to nothing, to JMP, to JMPZNZ over a JMP, and through a second test, without a change of any trace; when the rule applies is `Polish.TestApplies` |
| JumpRules.ExRuleSound | optimize.c:951-1026 | JMPZ_EX and JMPNZ_EX: to BOOL or nothing when both ways lead to the same block, and through a second test |
| JumpRules.ReturnRuleSound | optimize.c:1358-1386 | a JMP to a block that is RETURN or EXIT becomes that instruction |
| Polish.TestApplies | optimize.c:752-950 | for JMPZ and JMPNZ some rule applies iff the operand is a constant, both ways lead to the same block, the fall-through way leads to a lone JMP, or the second to a lone test of the same temporary |
| Polish.ZnzApplies | optimize.c:578-730 | the same for JMPZNZ: a constant, equal ways, a way to the next block, or to a lone test of the same temporary, for the third way only if the second leads to a block of one instruction |
| Polish.ExApplies | optimize.c:951-1026 | the same for JMPZ_EX and JMPNZ_EX: equal ways, or a lone test, with or without a result, of the temporary they write |
| Polish.JmpApplies | optimize.c:548-577 | a JMP goes iff it leads to the next block, and is threaded iff it leads to a lone JMP other than itself |
| Polish.ThreadsApply | optimize.c:1303-1316 | a second or third way is threaded iff it leads to a lone JMP |
| Polish.ReturnApplies | optimize.c:1358-1386 | a JMP is replaced iff it leads to a block that is one RETURN or EXIT |
| Polish.StillExactly | optimize.c:546-1386 | no rule applies at the end of a block and nothing there is left to be threaded iff, read off its instruction and its ways, it decides on no constant, its ways lead to different blocks, none to the next one where it could go on, none to a lone JMP and none to a lone test of the same temporary (the fall-through way of a test excepted, and the third way of a JMPZNZ as above) |
| PolishedCode.RestsTrim | optimize.c:3140-3190 | laid out in lines, such a graph with fewer blocks in use has no line that decides on a constant, and no jump that could be spared in these ways unless an empty block lies where it leads |
| IdleJumps.RestsIdle | optimize.c:548-562 | and with all its blocks still in use it has no JMP or JMPZNZ to the next line |
| IdleJumps.RestsReached | optimize.c:524-545 | in a graph at rest with exact predecessor lists and no cycle everything in use is reached |
| ConstTests.NoneInCode | optimize.c:3533-3588 | no line of the op array that the last passes make of a graph at rest decides on a constant, if no test of a constant kept its outcome |
| JumpRules.EditExact | optimize.c:546-1206 | a rewrite keeps the predecessor lists exact, except when the block has just removed itself and enters itself again |
| DeleteMerge.DeleteEquivalent | optimize.c:468-488 | unlinking a block nobody uses keeps the invariant and changes no trace |
| DeleteMerge.MergeEquivalent | optimize.c:1317-1355 | merging a block into its only predecessor keeps the invariant and changes no trace |
| DeleteMerge.DeleteExact | optimize.c:468-488 | exact predecessor lists stay exact |
| DeleteMerge.MergeExact | optimize.c:1317-1355 | exact predecessor lists stay exact |
| JmpOptimizer.Optimizer.OptimizeJmp | optimize.c:517-1391 | the loops as they run: a sequence of steps each of which the source allows, which keeps the invariant and the behaviour; from exact predecessor lists, whatever is listed in the end has the edge, and the lists are exact iff no step entered a block out of use; a graph at rest without JMPs to a RETURN is left alone; when it stops by itself the graph is at rest, every block in use ends in a jump of which nothing can be spared (`Polish.SparesNothing`, on instructions and edges), is not to be merged and has a next block that is in use and led to, and every JMP to a RETURN or EXIT is one that has just lost the mark of a `break`; when it does not, the budget is spent on its steps and one look at each block per step; and where all ways lead uphill the steps are bounded |
| JmpOptimizer.MarkLeft | optimize.c:1358-1386 | taking such a mark off leaves a graph to which a rule applies |
| Settling.TrailLess | optimize.c:517-1391 | in flow without cycles every step uses up some of a room read off the graph, so that every run is bounded |
| Settling.NeverEnds | optimize.c:1303-1316 | where a way out of a block leads to a JMP to itself there are runs of every length, and none of them leaves a graph at rest |
| Trails.TrailKeeps | optimize.c:517-1391 | for every sequence of steps that the source allows: invariant and behaviour are kept, every listed block keeps its edge, and a list has a block out of use in the end iff one had it before or some step entered one |
| Trails.TrailExactly | optimize.c:517-1391 | predecessor lists that are exact are exact after a run iff no step of it enters a block that is out of use |
| Trails.LosesExactly | optimize.c:357-392 | a step does so iff it adds an edge to a block that is out of use or takes its only predecessor, itself, away |
| Trails.NothingLost | optimize.c:517-1391 | no step does so in a run on whose way no block in use is led to by itself alone |
| Trails.NoCycleNothingLost | optimize.c:517-1391 | if the flow of the first graph has no cycle, no step of any run does so |
| LostLists.ListsLost | optimize.c:546-610 | three steps of the source after which exact lists are not exact any more, although at no time a one-instruction block branches to itself |
| LostLists.RunToLost | optimize.c:546-610 | the same from the compiled op array on: build and mark |
| JmpOptimizer.Optimizer.OptimizeTail | optimize.c:546-1026 | one `switch` with its `goto`s is such a sequence of steps: it keeps the invariant, the behaviour and the block list, and leaves the block alone if nothing of its jump can be spared, read off instructions and edges; and if it changes nothing and has budget left, nothing can be |
| JmpOptimizer.Optimizer.Apply | optimize.c:546-1026 | one rewrite carried out: exact lists stay exact iff the block is still in use or enters nothing, and it goes out of use iff it removes itself from a list that had nobody else |
| JmpOptimizer.Optimizer.Sweep | optimize.c:524-534 | unlinking all dead blocks changes no block in use, and with only the entry in use the list ends there |
| JmpOptimizer.Optimizer.DeleteDeadAfter | optimize.c:524-545 | after unlinking the dead blocks behind p, the next one is in use and has a predecessor |
| JmpOptimizer.Optimizer.MergeIntoPred | optimize.c:1317-1355 | the guard of the merge is enough for it to be sound |
| Graphs.ShortcutEquivalent | optimize.c:517-1391 | a graph each of whose blocks does what one or two blocks of another did shows the same traces: every run of each is matched by the other |
| EmitCfg.Emit | optimize.c:3140-3190 | the compacted code contains each used block at its new line, with all jump operands at the new lines of their blocks, in their old order, one directly behind the other, and nothing else |
| EmitCfg.Compact | optimize.c:3146-3166 | `memmove`ing the used blocks down one after the other overwrites no block still to be moved |
| Flat.SameTracesByGraphs | optimize.c:3140-3190 | op arrays that lay out equivalent graphs show the same traces |
| Flat.GraphToFlat | optimize.c:3140-3190 | each run of the graph is a run of the op array |
| Flat.FlatToGraph | optimize.c:3140-3190 | each run of the op array is kept up with by the graph, empty blocks included |
| LiveVars.ComputeGlobal | optimize.c:160-222 | a temporary is marked iff there are several blocks and some block needs it before writing it |
| LiveVars.CleanBlock | optimize.c:235-345 | the backward pass over a block, in place, is the recursive cleaning and touches nothing else |
| DeadResults.CleanTrims | optimize.c:235-345 | what is left of a block: every instruction is as it was, but that a result nobody needs is gone, with the instruction if it is there for nothing else (JMPZ_EX becomes JMPZ), or is marked unused; needed is what is global or read further down before it is written, in the cleaned block |
| LiveVars.CleanSim | optimize.c:235-345 | a cleaned block leaves in the same way, with the same trace and the same values where they still matter |
| LiveVars.LiveIsExposed | optimize.c:160-345 | what a cleaned block still needs from before is what the first pass saw |
| LiveVars.CleanedSameBehaviour | optimize.c:235-345 | if no block needs an unmarked temporary from before, removing dead results changes no trace |
| LiveLoops.ComputeLiveVar | optimize.c:160-347 | the marking is that of the first pass, and every block is cleaned, with no result left that nobody needs and nothing else gone; on typed code the pass changes no trace when there are several blocks, a block that does not come back, or a loop whose rounds keep the definitions they need; otherwise it does, for some code that the pass cannot tell apart, and for the code itself if its computations can be told apart |
| LiveLoops.LoopExactly | optimize.c:160-347 | cleaning a block that jumps to its own start is right, for all code that looks like it to the pass, iff every temporary that some round needs keeps its last definition; and for code without BOOL whose computations have different opcodes, iff the same |
| LoopCheck.CheckIsExact | optimize.c:160-347 | that condition, read off the block before the pass with as many rounds as there are temporaries: each definition some round needs stays by its kind, or what follows it in the block or tests at its end reads it |
| LiveLoops.KeptIsSame | optimize.c:235-345 | rounds that keep what they need show the same trace, for any number of rounds |
| LiveLoops.LostIsSeen | optimize.c:235-345 | otherwise some world shows the difference |
| Limits.SelfTestExact | optimize.c:951-963 | removing `JMPZ_EX $x, next, $x` leaves the machine unchanged iff `$x` is 0 or 1 |
| Limits.SelfTestNeedsBooleans | optimize.c:951-963 | a compiled op array whose graph, as built and marked, shows another trace once the rule has been applied |
| Limits.RunTested | optimize.c:951-963 | the same, carried out from the op array on: build, mark, and the step the rules then choose |
| Limits.TestedNotOk | optimize.c:951-963 | that op array does not meet the condition on self-tests, whatever temporaries are taken to be Booleans |
| Limits.OneBlockLoop | optimize.c:160-222 | the graph of a compiled one-block loop, after `optimize_jmp`, shows another trace once cleaned |
| Limits.LoopSettled | optimize.c:517-1391 | no rule of `optimize_jmp` applies to that graph, so that it reaches `compute_live_var` |
| Limits.RunLoop | optimize.c:160-222 | the same, carried out from the op array on: build, mark, `optimize_jmp` and `compute_live_var` |
| Registers.GetRegFinds | optimize.c:3233-3251 | `GET_REG` always finds a register; a new global's is above all used before, a local's is the lowest that nobody holds, and nobody else who is open has it |
| Registers.FreeRegKeeps | optimize.c:3233-3251 | giving a register back keeps the invariant |
| RegisterRuns.FewRegisters | optimize.c:3254-3405 | for any code and any marking, after any number of blocks: the registers used are the first n, n is at most the number of temporaries and at most the assigned globals plus the locals |
| RegisterRuns.AlwaysFound | optimize.c:3233-3249 | and in any later instruction `GET_REG` finds a register for whatever is asked |
| RegisterPressure.AsFewAsInUse | optimize.c:3254-3405 | for code with one live range per local the registers given out are at most the globals that have one and the most locals in use at one instruction |
| RegisterAllocator.Allocator.Get | optimize.c:3233-3249 | the macro, on the three arrays: for any code it leaves an assigned slot, and never reads an unassigned one |
| RegisterAllocator.Allocator.Block | optimize.c:3270-3385 | any block, scanned backwards and rewritten in place under one numbering that covers it |
| RegisterAllocator.ReassignRegisters | optimize.c:3254-3405 | for any code every used block is renumbered as a whole, only operands change, the numbering is that of the scan over all used blocks, and the new number of temporaries is at most the old one and at most the globals it assigned plus locals; with one live range per local no write hits a register still needed, globals have one home, and the new number is at most the globals assigned plus the locals in use at once |
| Renumber.PassBlock | optimize.c:3270-3385 | what one block does to the numbering: globals that had a register keep it, new ones get one above all earlier ones |
| Renumber.ReadsAlike | optimize.c:3254-3405 | every read of a temporary yields the value it had under the old number |
| Renumber.RenumberedRun | optimize.c:3254-3405 | on every path the two programs go through the same blocks with the same trace, globals at home |
| Renumber.RenumberedSameTrace | optimize.c:3254-3405 | renumbering is invisible from the start of the function |
| Renumber.CleanedAndRenumbered | optimize.c:160-347 | removing dead results and then renumbering shows the same trace and stops at the same time |
| ImageStore.Writer.Allocate | ea_store.c:376-378 | a cell is put at the bump pointer, where nothing was, and the pointer moves to the next aligned address behind it; no two cells overlap, and as many bytes are used as were asked for |
| ImageStore.Writer.AllocateNamed | ea_store.c:1072-1083 | the same for a structure with its name at the end, which is in the table of strings from then on |
| ImageStore.Writer.StoreString | ea_store.c:379-405 | a short text that is in the table is shared: its address is returned and nothing is written; any other is written at the bump pointer, which moves behind it by its aligned length, and goes into the table iff it is short |
| ImageStore.Writer.StoreTable | ea_store.c:431-525 | the copy holds the buckets not removed, in order, with slots, chains, list, data and count right |
| ImageStore.Writer.StoreZval | ea_store.c:528-550 | the cells written hold the value, behind the old bump pointer and before the new one |
| ImageStore.KeptNext | ea_store.c:460-468 | the next bucket that is kept is the next one of the copy |
| ImageStore.KeptExactly | ea_store.c:460-468 | the buckets of the copy are those of the table, in order, for which there is no check or whose verdict is to keep them |
| Image.HoldsMoved | ea_restore.h:31-31 | what a region holds it still holds after a move, with all pointers behind by the distance |
| Image.HoldsElsewhere | ea_store.c:431-550 | cells outside a value's own stretch do not matter to it |
| ImageFixup.Loaded.FixupTable | ea_restore.c:95-132 | every pointer of a table and of what it leads to is relocated exactly once |
| ImageFixup.Loaded.FixupContent | ea_restore.c:134-152 | the same for a zval |
| ImageRestore.RestoreTable | ea_restore.c:356-442 | a new table in the heap that holds the same value, with its own chains and list |
| ImageRestore.RestoreZval | ea_restore.c:445-470 | the same for a zval |
| ImageCode.StoreCode | ea_store.c:552-771 | an op array in memory: opcodes, constants, jumps to opcode addresses, name, file and static variables |
| ImageCode.FixupCode | ea_restore.c:154-255 | all of its pointers and jump addresses relocated once |
| ImageCode.RestoreCode | ea_restore.c:480-690 | the op array read back is the one stored; each jump names the same opcode |
| ImageScript.StoreEntry | ea_store.c:1059-1145 | the entry with its file name leads to the main op array and to a list of all functions, in order, each under its name; all of them share one table of short strings; no two cells of the image overlap, and from an aligned address on it fills exactly the space that `calc_size` foresees, which is what `ScriptBill.Bill` reads off the script |
| ImageScript.ScriptAsked | ea_store.c:1059-1145 | all that is asked for while a script is stored is what the model of the storing pass asks for, and costs what `calc_size` has foreseen |
| ImageScript.FixupEntry | ea_restore.c:305-322 | the distance computed from the entry's own address is the distance it moved; the main op array and, along the list, every function are relocated once |
| ImageScript.RestoreEntry | eaccelerator.c:801-819 | the main op array and the functions given to the engine are those stored, in their order |
| ImageScript.RoundTrip | ea_restore.c:305-322 | store at one address, load at another, fix up, restore: the image fills the space foreseen, at its new place it holds the script, and what is rebuilt from it is the same script, for all scripts without classes (and without argument info, compiled variables, break and try tables, which only the size model has) |
| HashIndex.ChainFind | ea_store.c:492-502 | walking the chain of a key's slot finds the last entry with that key |
| HashIndex.ListFind | ea_restore.c:384-440 | walking the list finds the first |
| HashIndex.SearchesAgree | ea_store.c:492-502 | both agree for every key iff no key occurs twice |
| HashIndex.EveryEntryReached | ea_store.c:492-502 | following `pNext` from the slot of its hash reaches every entry |
| HashIndex.NoStrangers | ea_store.c:492-502 | and never an entry of another slot |
| HashIndex.ChainsDoubly | ea_store.c:492-502 | `pNext` and `pLast` belong together, and the entry without `pLast` is the one in the slot |
| HashIndex.CopyFinds | ea_store.c:460-468 | a key is found in a filtered copy iff some bucket with it is kept by the check, or there is no check |
| HashIndex.CopyUnique | ea_store.c:460-468 | a filtered copy of a table without duplicate keys has none |
| ScriptSize.CalcIsEnough | ea_store.c:337-375 | for every script the space used is at most the space foreseen, and equal iff no class table loses a bucket |
| ScriptSize.CostIs | ea_store.c:50-60 | the cost of a pass does not depend on the order in which it meets strings |
| ScriptBill.CostIsBill | ea_store.c:337-375 | both passes take what can be read off the script: its structures, whatever the order, each long string as often as it is mentioned, and each short one once unless it is the file's, a class's or a function's name; the storing pass without what the checks take out |
| ScriptPasses.CalcSize | ea_store.c:337-375 | the sum the sizing pass returns, with its table of strings, is that bill |
| ScriptPasses.StoreScript | ea_store.c:1059-1145 | where the bump pointer of the storing pass ends: behind the same bill, without what the checks take out |
| ScriptPasses.StoreInSpace | eaccelerator.c:744-773 | storing stays inside the space asked for, and fills it iff nothing is filtered |
| ScriptPasses.Walker.PutClass | ea_store.c:920-1054 | storing a class, with the checks and in its order, or sizing it, without checks and in another order: the pointer or the sum grows by the bytes of the class's requests, given the strings met before |
| ScriptPasses.Walker.PutTable | ea_store.c:431-525 | the same for a table, with or without a check |
| ScriptPasses.Walker.PutCode | ea_store.c:552-771 | the same for an op array |
| Arena.RunKeeps | mm.c:1159-1293 | in every run live and free blocks tile the arena and no two free ones touch |
| Arena.GiveUndoesTake | mm.c:1171-1293 | a free right after its malloc restores the identical arena |
| Arena.FreeAllRestores | mm.c:1241-1293 | freeing all live blocks in any order leaves the single initial bucket |
| Arena.MaxSizeExact | mm.c:1295-1311 | larger requests than `mm_maxsize` fail; all smaller ones succeed iff the largest bucket is aligned |
| Arena.AlignedBuckets | mm.c:1159-1169 | with an aligned end every bucket is aligned |
| Arena.PayloadsApart | mm.c:1171-1239 | payloads are aligned, inside the arena and disjoint |
| Arena.BestUnique | mm.c:1179-1203 | there is only one best fit |
| Arena.TakeHandsOut | mm.c:1205-1236 | a bucket gives up exactly the bytes asked for, and what is behind them stays free, if that can hold a bucket; otherwise it goes as a whole; all other tiles stay |
| Arena.GiveTakesBack | mm.c:1241-1293 | the free block that is made reaches from the free tile that ends at the block, if there is one, to the end of the free tile that starts behind it, if there is one; all other tiles stay |
| FreeList.FreeListSorted | mm.c:1241-1293 | the free list is strictly sorted by address and no two buckets touch |
| Allocator.Heap.constructor | mm.c:1159-1169 | one free bucket behind the header and the lock |
| Allocator.Heap.Malloc | mm.c:1171-1239 | NULL iff nothing is asked for or no bucket is big enough, and then nothing changes; otherwise the lowest of the smallest buckets that fit gives up exactly the request plus header, aligned, and keeps the rest, if the rest can hold a bucket, and is given whole if not; `available` falls by what the block has, which is less than a bucket more than asked for; links and sizes are right, and no other block's contents change |
| Allocator.Heap.Release | mm.c:1241-1293 | the block joins the free neighbours it touches and only those, `available` grows by its size, the list stays linked, and no other block's contents change |
| Allocator.Heap.MaxSize | mm.c:1295-1311 | the payload of the largest free bucket |
| CacheShape.FindMeans | eaccelerator.c:118-163 | a lookup finds the entry of that name and hash unless the file has changed, in which case it is given up |
| CacheShape.AddMeans | eaccelerator.c:175-213 | the name leads to the new entry, all others where they led |
| CacheShape.AddShape | eaccelerator.c:175-213 | chains, names and counters stay right when an older entry is replaced |
| CacheRuns.DropGood | eaccelerator.c:1534-1563 | one round of the request's end: the count goes down with the record, and an entry leaves only when nobody uses it |
| CacheRuns.RunsGood | eaccelerator.c:118-213 | over every interleaving of any number of processes use counts equal used records, no used entry is freed, chains, names and counters are right |
| CacheRuns.AllEnded | eaccelerator.c:1534-1563 | when all requests have ended nothing waits for removal and nothing is in use |
| CacheEntries.StepOnEntries | eaccelerator.c:118-213 | what each step leaves of each entry, written out: a hit adds one to hits and uses and sets the time to live, a lookup of a changed file gives the entry up, a new one replaces that of its name, the end of a request takes its records off and frees what nobody uses and is given up, pruning frees what has run out and is not used or is missing or changed; all other entries are as they were |
| CacheRuns.StepOnMap | eaccelerator.c:118-213 | each step as an operation on the map from names to entries; pruning takes an entry away iff its time to live is set and over and nobody uses it, or its file is missing or changed |
| CacheRuns.PruneSafeExactly | eaccelerator.c:411-435 | pruning keeps counts and used entries iff no used script is missing or changed |
| CacheRuns.PurgeSafeExactly | ea_info.c:313-332 | purging does iff nothing waits for removal |
| CacheRuns.PruneFreesUsed | eaccelerator.c:411-435 | a process loads a script whose file then changes: pruning frees the entry in use |
| CacheRuns.PurgeFreesUsed | ea_info.c:313-332 | a process loads a script and the cache is cleared: purging frees the entry in use |
| CacheTable.Table.FindEntry | eaccelerator.c:118-163 | the walk along the chain is the lookup of the state machine, and leaves of each entry what `CacheEntries.LookedUp` says; `*nreloads` is set to one more than that of an outdated entry, and left alone otherwise |
| CacheTable.Table.AddEntry | eaccelerator.c:175-213 | linking in front, then the walk for an older entry; the new entry is there, the older one is given up, all others are as they were |
| CacheTable.Table.PruneAll | eaccelerator.c:411-435 | the unlinking loop: an entry of the table goes iff its time to live is set and over and nobody uses it, or its file is missing or changed; all others are as they were |
| CacheTable.Table.CleanRequest | eaccelerator.c:1534-1563 | the locked loop drops all records of the request: uses go down by the records, and an entry is freed iff it was given up and none are left |
| CacheTable.Table.ClearAll | ea_info.c:270-302 | used entries move to the removed list, the others are freed, entry by entry |
| CacheTable.Table.PurgeAll | ea_info.c:313-332 | the removed list is freed and nothing else |
| SharedMemory.NothingLost | eaccelerator.c:216-267 | in every run of cache and allocator together the allocated blocks are exactly the instance block, the table and removed entries, and those under construction |
| SharedMemory.ActSound | eaccelerator.c:724-773 | one such step |
| SharedMemory.RetryFinds | eaccelerator.c:438-450 | when a script that is pruned is big enough, the second attempt to allocate succeeds |
| SharedMemory.InitSound | eaccelerator.c:216-267 | the state after `init_mm` |
| SharedMemory.ClearGivesAllBack | ea_info.c:270-302 | when all requests have ended, clearing leaves only the instance block |
| SharedMemory.LastBlockRestores | mm.c:1241-1293 | and with that freed too the arena is one bucket |
| SharedMemory.AnyOrder | mm.c:1241-1293 | the order in which blocks are freed makes no difference |
| SharedMemory.SameLiveSameArena | mm.c:1241-1293 | the live blocks determine the arena |
| SharedMemory.BytesAddUp | mm.c:1159-1293 | free and live bytes add up to the arena |
| Spinlock.MutualExclusion | mm.c:210-282 | over every interleaving at most one process is inside, the word is 1 iff one is, and critical sections follow one another |
| Spinlock.StepKeeps | mm.c:216-282 | one step |
| Spinlock.NobodyInsideNextGetsIn | mm.c:216-271 | an exchange succeeds iff nobody is inside |
| Glob.Fnmatch | fnmatch.c:59-199 | the matcher returns 0 iff the string is matched by the parsed pattern |
| Glob.Rangematch | fnmatch.c:153-199 | a character against a bracket: ranges, escapes, negation, and unterminated brackets |
| Spelling.ReadsAsWritten | fnmatch.c:59-199 | a pattern written from pieces (characters, escaped or not, `?`, `*`, brackets of single characters and spans with or without a `!` or `^`) is read as these pieces |
| Spelling.EveryPatternIsWritten | fnmatch.c:59-199 | and every string is written from pieces |
| Spelling.MatchesAsWritten | fnmatch.c:59-199 | a pattern matches a string iff the string falls into parts, one for each of its pieces: any part for a `*`, one character for each other piece, the character itself, any one for a `?`, and for a bracket one that is listed or lies within a span, or, with a mark, one that is not and does not |
| Spelling.SpanBracket | fnmatch.c:181-194 | `[a-b]`, for characters that need no escape, matches exactly the strings of one character from a to b |
| Glob.MatchesInLanguage | fnmatch.c:59-150 | matching a pattern is splitting the string into one part for each of its tokens |
| Glob.SameReadingExactly | fnmatch.c:153-199 | for every pattern: making a leading `]` a member of its bracket, as section 3.13 of POSIX 1003.2-1992 does, makes no difference to how the pattern is read iff none of its brackets opens with a `]` |
| Glob.SameLanguage | fnmatch.c:44-47 | and then it makes none to the strings matched |
| Glob.DiffersExactly | fnmatch.c:153-199 | for every pattern: some string is matched differently under that rule iff a bracket opens with a `]`, negated or not, and the pattern matches some string with the rule or without |
| Glob.EmptyMatchesNothing | fnmatch.c:153-199 | a pattern one of whose brackets, not negated, opens with a `]` matches nothing |
| Glob.EmptyBracket | fnmatch.c:153-199 | a `]` right after `[` closes the bracket: the pattern matches nothing, and negated it is a `?` |
| Filter.ParseFilter | eaccelerator.c:1465-1484 | the list has exactly the words of the filter, back to front |
| Filter.WordsOfJoin | eaccelerator.c:1465-1484 | joining words with spaces and reading them back gives the words |
| Filter.Match | eaccelerator.c:1077-1111 | a path is accepted iff no pattern with a `!` matches and a plain one does, or there is none |
| Filter.Check | eaccelerator.c:1077-1111 | the verdict in terms of the filter's words alone, whatever the order of the list |
| Crc32.TableIs | eaccelerator.c:451-518 | each entry of the table is eight steps of the reflected division |
| Crc32.UpdateIs | eaccelerator.c:520-527 | one round of the loop is the eight bits of the byte, one by one |
| Crc32.Checksum | eaccelerator.c:520-527 | for every byte string the loop computes the bit-by-bit CRC-32 of section 8 of RFC 1952 |
| Crc32.CheckValue | eaccelerator.c:520-527 | the checksum of `123456789` is 0xcbf43926 |
| Crc32.BurstDetected | eaccelerator.c:629-641 | messages that differ only within 32 consecutive bits have different checksums |
| Crc32.ImagesDiffer | eaccelerator.c:629-641 | images that differ only within four consecutive bytes have different checksums |

## Left out

- The peephole pass `optimize_bb`: most of its rules rest on the engine's value semantics. `Driver.OptimizeFunction` is the driver without it.
- Driver.OptimizeFunction: leaves out the peephole pass, and renumbers before it emits the code, where the source emits first; emitting looks at no temporary. Its claim about traces is for orderly op arrays; `Limits.RunLoop` and `Limits.OneBlockLoop` have a compiled one for which it is false.
- Optimize.OptimizeCode: leaves out the peephole pass, `compute_live_var` and `reassign_registers`, and so needs no orderly op array.
- BuildCfg.Build: try/catch blocks and their edges, ZEND_GOTO, ZEND_BRK and ZEND_CONT, ZEND_THROW, ZEND_CATCH, ZEND_JMP_SET and the edge of a class fetch to the next line are not built; op arrays arrive with jumps already resolved.
- BuildCfg.BuildTheorem: about the same graphs, without those edges.
- JumpRules.ExRuleSound: without the rules that forward through BOOL or FREE (optimize.c:1027-1119): they drop a result that must be dead on fall-through, which the code does not check.
- JmpOptimizer.Optimizer.OptimizeTail: without the rules that forward through BOOL or FREE (optimize.c:1027-1119, 1207-1299).
- JmpOptimizer.Optimizer.OptimizeJmp: without those rules too; and it takes its steps from a budget, because the source does not stop in all flow with cycles (`Settling.NeverEnds`); all claims but those on what is left hold whenever it stops.
- ConstTests.NoneInCode: in one direction only; a test of a constant that keeps an outcome somebody needs does no harm either.
- IdleJumps.RestsIdle: says nothing of blocks at rest that are in use and not reached.
- `mark_used_bb2` (optimize.c:422-443) marks without predecessor lists; the driver uses the marking with lists instead.
- LiveLoops.ComputeLiveVar: takes it as given that results in the default arm of the switch come from pure instructions and that ZEND_OP_DATA is absent. Operands of DO_FCALL_BY_NAME, FETCH_CONSTANT and class fetches have no cases of their own. The flag for an unused result is a remark in the model: an instruction that carries it stores its result all the same.
- RegisterAllocator.ReassignRegisters: only its last clause takes it as given that a block-local temporary has one live range per block and that results flagged unused are not read (`RangesOk`). FE_RESET and the other opcodes with two results count as having one.
- Renumber.CleanedAndRenumbered: compares runs from the start of the function, with all temporaries 0.
- Code is taken to be as the compiler makes it in what the engine relies on: temporaries are in range, and jumps, tests and returns have no result, the _EX forms excepted (`CodeOk`). `bools` are temporaries, chosen by the caller and possibly none, that only instructions with a Boolean result write. A self-test of any other temporary must jump to where jumps alone do not lead to the next line (`SelfTestsOk`); without it the claims about traces are false (`Limits.TestedNotOk`).
- Memory in the image model is a map from addresses to typed cells; the model does not say how a cell is encoded in bytes, and reading an image from a file is taking the same cells at other addresses.
- ImageCode.StoreCode: op arrays have name, file, opcodes, constants, jumps and static variables; argument info, compiled variables, break and try tables are laid out by the same statements and appear in the size model only.
- ImageCode.FixupCode: relocates the same parts of an op array.
- ImageCode.RestoreCode: restores the same parts of an op array.
- ImageScript.StoreEntry: stores no classes, and its `calc_size` is of scripts without classes; `ScriptBill.CostIsBill` is about all.
- ImageScript.FixupEntry: the list of classes (walked in the same way as the list of functions) is left out.
- ImageScript.RestoreEntry: returns the functions in the order in which they are added; that a name already in the engine's table is skipped or an error is not modelled.
- ImageScript.RoundTrip: about scripts without classes, with op arrays of those parts.
- Classes in the image, the repair of inheritance when a class is restored, magic methods and scopes: calls into the engine.
- ImageStore.Writer.StoreTable: the verdicts of the check functions are a parameter; how they compare a property with its parent's is not modelled. Buckets whose data lies outside the bucket's own pointer field (`pDataPtr == NULL`) do not occur in tables of zvals and are not stored. NULL arrays and the symbol table are not values.
- ImageFixup.Loaded.FixupTable: about the same tables, without such buckets.
- ImageRestore.RestoreTable: about the same tables, without such buckets.
- ScriptSize.CalcIsEnough: op arrays of other types than internal and user functions, and resources, make the source give up; such scripts are not values of the model. Sums do not wrap around.
- ScriptPasses.Walker.PutClass: what the sizing functions return is added up in one field instead of being returned and added by the caller.
- Spinlock.MutualExclusion: the other lock back ends, and yielding or sleeping between exchanges, are not modelled.
- Allocator.Heap.Malloc: requests do not overflow `size_t`; MM_CHECK and the shared-memory back ends are left out.
- The second, unlocked loop of `eaccelerator_clean_request` and entries that are not shared: they touch only the process's own heap.
- CacheRuns.RunsGood: a hit and its registration in the used list are one step; a hit refused by open_basedir is not modelled. Prunes and purges are steps only where they keep the counts right, as their two exact conditions say. Files are their current time and size.
- CacheRuns.StepOnMap: time and the verdict of `stat` are parameters.
- SharedMemory.ActSound: a malloc that fails leaves the cache alone; the prune and the second attempt that the source makes then are two further steps, put together in `SharedMemory.RetryFinds`.
- Glob.Fnmatch: flags other than 0 and characters beyond one unit; the filter code passes neither.
- Path resolution, file locks, cache directories, version encoding, the disassembler and all pages: plumbing or user interface.
