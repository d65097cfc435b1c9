# Copy propagation and the pthreads task pool of the Chapel compiler and runtime

This project models two parts of the Chapel repository in Dafny and proves
properties of both.

**Copy propagation** (`compiler/optimizations/copyPropagation.cpp`) is the
optimization that replaces a use of `y` by `x` after a copy `y := x`. The
model covers:

- the candidate selector and the invalidation oracle, which decides when an
  occurrence of a symbol kills the copies that mention it;
- the available-copies relation: a forward map plus a reverse index;
- the per-block propagator and the local pass;
- the global pass:
  - the sparse copy-pair list, then the dense one;
  - the COPY (GEN) and KILL bit vectors;
  - the IN seed;
  - a forward-flow solver;
  - the final re-propagation of each block from its IN vector;
- single-assignment reference propagation;
- the two pass drivers.

The IR is an arena of symbol occurrences. Each occurrence has a parent
context, a def/use role and the statement it belongs to. A statement is an
ordered list of occurrences. A basic block is a list of statements. What the
passes rewrite is the binding of each occurrence to a symbol, which is an
`array<Sym>` in the imperative methods.

**The task pool** (`runtime/threads-pthreads/chpl_cfg_threads.c`) is the
pthreads tasking layer's bookkeeping under its threading lock. The model
covers:

- the FIFO pool of task entries, with its head and tail pointers;
- the thread, running and waking counters, and the sticky thread-creation
  warning;
- the worker's claim step;
- the circular task lists of a cobegin;
- the joiner's claim-or-detach step;
- the per-thread serial flag.

The state is a `Scheduler` object. Pool entries and task-list nodes live in
arenas indexed by position. A ghost sequence gives the order of the pool.
Every critical section is a method, proved equal to a step function on a
snapshot of the state (module `ThreadsSpec`). The properties are proved as
lemmas about those step functions.

Modules, in dependency order:

| module | what it holds |
|---|---|
| `Wrappers` | `Option` |
| `IR` | the operation arena |
| `CopyOracle` | candidate selection and the invalidation oracle |
| `Available` | the available-copies relation |
| `LocalProp` | the block propagator and the local pass |
| `Dataflow` | bit vectors and a forward-flow solver |
| `GlobalProp` | the global pass |
| `GlobalExample` | a three-block example of the whole global pass |
| `GlobalRerun` | a two-block example on which a second run of the global pass changes the function |
| `RefProp` | reference propagation |
| `Driver` | the pass drivers |
| `ThreadsSpec` | scheduler step functions and their lemmas |
| `Threads` | the `Scheduler` and `SerialFlags` classes |

## Model

| member | source | states |
|---|---|---|
| CopyOracle.Invalidates | compiler/optimizations/copyPropagation.cpp:18-39 | An occurrence in the def set always invalidates. One in neither set never does. A use invalidates exactly when its parent context exposes the symbol: taking a reference to it; a member read of a record, or a record as the first argument of a member store; a real or imaginary part of a complex. |
| CopyOracle.LocalsInMembers | compiler/optimizations/copyPropagation.cpp:159-164 | A symbol is collected from a block exactly when one of its statements declares it as a candidate variable. |
| CopyOracle.LocalsOfMembers | compiler/optimizations/copyPropagation.cpp:157-165 | A symbol is in the function's candidate list exactly when some block declares it as a candidate variable. |
| CopyOracle.LocalsInAppend | compiler/optimizations/copyPropagation.cpp:159-164 | The symbols collected from statements `a + b` are those collected from `a`, followed by those from `b`. |
| CopyOracle.LocalsInNoDecls | compiler/optimizations/copyPropagation.cpp:159-164 | Statements that declare nothing contribute no symbol. |
| CopyOracle.CollectLocals | compiler/optimizations/copyPropagation.cpp:157-165 | The collection loop yields the declared candidates block by block. Every collected symbol passes the candidate test: it is not the return symbol, it has a reference type, and it is not concurrent. |
| CopyOracle.BuildOccSets | compiler/optimizations/copyPropagation.cpp:171-180 | The def set holds exactly the def occurrences of the collected locals, and the use set exactly their use occurrences. |
| Available.Kill | compiler/optimizations/copyPropagation.cpp:65-77 | Afterwards `s` is not a key and no key maps to `s`. A key that maps to another symbol keeps its value. |
| Available.KillKeepsNoSelfMap | compiler/optimizations/copyPropagation.cpp:65-77 | Killing a symbol keeps the relation free of self-mappings. |
| Available.AvailableCopies.constructor | compiler/optimizations/copyPropagation.cpp:183-184 | The forward map and the reverse index start empty and consistent. |
| Available.AvailableCopies.Get | compiler/optimizations/copyPropagation.cpp:110 | The lookup finds a source exactly when the key is mapped, and returns that source. |
| Available.AvailableCopies.MakeAvailable | compiler/optimizations/copyPropagation.cpp:51-62 | Afterwards `fwd[key] == value` and `key` is appended to `rev[value]`. The invariant "every mapped key is in the reverse index of its value" holds again. |
| Available.AvailableCopies.RemoveAvailable | compiler/optimizations/copyPropagation.cpp:65-77 | The forward map becomes `Kill(old fwd, s)`: `s` is unmapped and so is every key mapped to `s` through the reverse index. The reverse index is unchanged, and the invariant is kept. |
| LocalProp.RewriteUsesAt | compiler/optimizations/copyPropagation.cpp:107-116 | After phase 1 an occurrence holds the mapped source exactly when it is in the statement, in the use set, mapped, and not flagged by the oracle. Otherwise it keeps its symbol. The source is the one the relation held before the statement's invalidations. |
| LocalProp.StmtRewritesOnlyFlaggedFreeUses | compiler/optimizations/copyPropagation.cpp:107-129 | A statement changes an occurrence only if the occurrence is one of its own uses in the use set, mapped, and not flagged. The new symbol is that use's source. |
| LocalProp.CopyRecordedAfterInvalidation | compiler/optimizations/copyPropagation.cpp:123-141 | After a copy statement, the relation maps its lhs symbol to its (already rewritten) rhs symbol, although invalidations happened earlier in the same statement. |
| LocalProp.InvalidateAllKeepsNoSelfMap | compiler/optimizations/copyPropagation.cpp:123-129 | Phase 2 only removes entries: every remaining entry was there before, and no self-mapping appears. |
| LocalProp.PropagateBlockKeepsNoSelfMap | compiler/optimizations/copyPropagation.cpp:100-142 | A block never puts a self-mapping into the relation, because inserted copies have `lhs != rhs`. |
| LocalProp.NoSetsNoRewrite | compiler/optimizations/copyPropagation.cpp:109 | With an empty use set, phase 1 changes nothing. |
| LocalProp.EmptyStaysEmpty | compiler/optimizations/copyPropagation.cpp:123-129 | Invalidation of an empty relation leaves it empty. |
| LocalProp.NoCandidatesNoChange | compiler/optimizations/copyPropagation.cpp:100-142 | With empty def and use sets, a block started from an empty relation changes no occurrence and records no copy. |
| LocalProp.NoCandidatesNoChangeBlocks | compiler/optimizations/copyPropagation.cpp:182-186 | With empty def and use sets, the per-block loop changes no occurrence. |
| LocalProp.LocalPassWithoutCandidates | compiler/optimizations/copyPropagation.cpp:149-187 | A function without candidate locals is left unchanged by the local pass. |
| LocalProp.NoUsesKeepVars | compiler/optimizations/copyPropagation.cpp:107-116 | With an empty use set, a block changes no occurrence, whatever the relation holds. |
| LocalProp.PropagateBlockFrame | compiler/optimizations/copyPropagation.cpp:100-142 | An occurrence outside the block's statements keeps its symbol. |
| LocalProp.PropagateBlockAppend | compiler/optimizations/copyPropagation.cpp:100-142 | Propagating statements `a + b` is propagating `a`, then `b` from the state `a` left. |
| LocalProp.DeclsKeepState | compiler/optimizations/copyPropagation.cpp:100-142 | Declarations, which have no occurrence and are not moves, change neither the arena nor the relation. |
| LocalProp.ChainSets | compiler/optimizations/copyPropagation.cpp:157-180 | In `var a, x, y; x := a; y := x; f(y)`, the three declared variables are the candidates, and the def and use sets are their def and use occurrences. |
| LocalProp.ChainExample | compiler/optimizations/copyPropagation.cpp:149-187 | On that function the local pass turns `y := x` into `y := a` before recording it, and ends with `f(a)` and the relation `{x -> a, y -> a}`. |
| LocalProp.AliasSets | compiler/optimizations/copyPropagation.cpp:157-180 | In `var a, x, p; x := a; p := &x; f(x)`, the declared variables are the candidates, and the def and use sets are their def and use occurrences. |
| LocalProp.AliasExample | compiler/optimizations/copyPropagation.cpp:149-187 | On that function the local pass lets the reference `&x` kill `x -> a`, so `f(x)` is not rewritten and the relation ends empty. |
| LocalProp.RewriteStmtUses | compiler/optimizations/copyPropagation.cpp:107-116 | The in-place loop leaves the arena equal to `RewriteUses` of the old arena. |
| LocalProp.InvalidateStmt | compiler/optimizations/copyPropagation.cpp:123-129 | The in-place loop leaves the relation equal to `InvalidateAll` of the old relation, and keeps the relation's invariant. |
| LocalProp.InsertStmtCopy | compiler/optimizations/copyPropagation.cpp:134-141 | The relation becomes `InsertCopy` of the old one: the pair is added only for a move between two distinct plain symbols whose lhs is in the def set and whose rhs is in the use set, a constant or an immediate. |
| LocalProp.LocalCopyPropagationCore | compiler/optimizations/copyPropagation.cpp:93-143 | Arena and relation end as `PropagateBlock` of their old values: the three phases run in order, statement by statement. |
| LocalProp.LocalCopyPropagation | compiler/optimizations/copyPropagation.cpp:149-187 | The arena ends as `LocalPass`: each block is propagated from an empty relation, with the candidates' def and use sets. |
| Dataflow.StepMonotone | compiler/optimizations/copyPropagation.cpp:422 | One round of the equations `OUT = GEN ∪ (IN − KILL)`, `IN = ∩ OUT(preds)` is monotone in IN. |
| Dataflow.ForwardFlow | compiler/optimizations/copyPropagation.cpp:422 | The solution lies below the seed. It solves the equations for every block with predecessors other than the entry. The entry block and blocks without predecessors keep their seed. |
| Dataflow.ForwardFlowGreatest | compiler/optimizations/copyPropagation.cpp:422 | Every fixpoint of the equations below the seed lies below the solution. |
| GlobalProp.DeclsAddNoPair | compiler/optimizations/copyPropagation.cpp:260-297 | Declarations neither kill nor add a pair of the sparse list. |
| GlobalProp.SparseAll | compiler/optimizations/copyPropagation.cpp:256-300 | One end position per block. The ends are ordered and never beyond the list. The last end is the length of the list. |
| GlobalProp.AnyKillsExists | compiler/optimizations/copyPropagation.cpp:269-282 | `AnyKills` holds exactly when some occurrence invalidates a symbol that one side of the pair holds. |
| GlobalProp.KillPairsAt | compiler/optimizations/copyPropagation.cpp:269-282 | The kill loops of one statement null entry `i` exactly when `i` is in the current block's range, the entry is present, and an occurrence of the statement kills it. Every other entry is unchanged. |
| GlobalProp.SparseSurvival | compiler/optimizations/copyPropagation.cpp:260-297 | A pair present after the first `t` statements of its block is still present at the block's end exactly when no occurrence in the rest of the block invalidates one of its symbols. |
| GlobalProp.OccsOfSnoc | compiler/optimizations/copyPropagation.cpp:261-264 | The occurrences of statements `a + [x]` are those of `a`, followed by those of `x`. |
| GlobalProp.CompactMembers | compiler/optimizations/copyPropagation.cpp:322-331 | A pair is in the dense list exactly when it is a non-null entry of the sparse list. |
| GlobalProp.CompactOk | compiler/optimizations/copyPropagation.cpp:322-331 | Every dense pair joins two occurrences bound to different symbols. |
| GlobalProp.Densify | compiler/optimizations/copyPropagation.cpp:312-334 | The conversion loop yields the sparse list without its null entries, and each block's dense end: the number of surviving pairs up to its sparse end. |
| GlobalProp.DenseEndsOk | compiler/optimizations/copyPropagation.cpp:312-334 | The dense ends are ordered, never beyond the dense list, and the last one is its length. |
| GlobalProp.BuildCopy | compiler/optimizations/copyPropagation.cpp:339-365 | The COPY bit of block `i` is set exactly for the pairs in `[N[i-1], N[i])`. |
| GlobalProp.MarkKills | compiler/optimizations/copyPropagation.cpp:389-398 | The two j-loops set exactly the bits outside `[start, stop)` whose pair mentions the symbol. No other bit changes. |
| GlobalProp.MarkStmtKills | compiler/optimizations/copyPropagation.cpp:386-401 | After one statement, the bits set are those already set plus those outside the block's range whose pair is killed by one of the statement's occurrences. |
| GlobalProp.KillRow | compiler/optimizations/copyPropagation.cpp:376-402 | A block's KILL bit is set exactly for the pairs outside its own range that one of its invalidating occurrences mentions. |
| GlobalProp.BuildKill | compiler/optimizations/copyPropagation.cpp:371-405 | The KILL vectors equal `KillOf`. No block kills a pair of its own range. |
| GlobalProp.InitIn | compiler/optimizations/copyPropagation.cpp:348-355 | The entry block's IN is all false. Every other block's IN is all true. |
| GlobalProp.SeedAboveStep | compiler/optimizations/copyPropagation.cpp:411-422 | The seed is a valid start for the solver: one round of the equations never sets a bit the seed does not have. |
| GlobalProp.SeedMapSound | compiler/optimizations/copyPropagation.cpp:430-435 | Every copy made available from an IN vector is a collected pair whose bit is set. |
| GlobalProp.SeedMapComplete | compiler/optimizations/copyPropagation.cpp:430-435 | A pair whose bit is set is available with its own source, unless a later set pair has the same lhs. |
| GlobalProp.SeedMapNoSelfMap | compiler/optimizations/copyPropagation.cpp:430-435 | Pairs of two different symbols seed a relation without a self-mapping. |
| GlobalProp.FinalSeedSound | compiler/optimizations/copyPropagation.cpp:429-435 | Seeding from an arena in which every pair joins two different symbols yields only copies of pairs with their bit set, with the symbols that arena gives them, and no self-mapping. The block propagator can therefore start from that relation. |
| GlobalProp.FinalPhaseSkipsEmptyIn | compiler/optimizations/copyPropagation.cpp:425-438 | An occurrence that lies in no block with a set IN bit keeps its symbol through the final loop. |
| GlobalProp.FinalPhaseNoUses | compiler/optimizations/copyPropagation.cpp:425-438 | With an empty use set the final loop changes nothing, in the as-written and the corrected form. |
| GlobalProp.SeededRunRewritesUse | compiler/optimizations/copyPropagation.cpp:107-116 | A block seeded with a set pair `y -> x` rewrites a non-invalidating use of `y` in its first statement to `x`, when no later set pair has destination `y`. |
| GlobalProp.SeededRunKeepsUse | compiler/optimizations/copyPropagation.cpp:107-116 | A use in the first statement whose symbol is no set pair's destination keeps its symbol. |
| GlobalProp.FinalPhaseRewritesAvailableUse | compiler/optimizations/copyPropagation.cpp:425-438 | In the final loop as written, a use of `y` in block `b`'s first statement becomes the symbol the rhs of a pair `y := x` with a set IN bit holds when `b` is reached. |
| GlobalProp.FinalPhaseKeepsUnavailableUse | compiler/optimizations/copyPropagation.cpp:425-438 | A use in block `b`'s first statement that no set pair of `b` has as destination is left alone by the final loop. |
| GlobalProp.FinalPropagation | compiler/optimizations/copyPropagation.cpp:425-438 | The loop leaves the arena equal to `FinalPhaseAsWritten`. Each block is seeded from the pairs whose IN bit is set, with the symbols their occurrences hold when the block is reached, and is re-propagated only when one bit is set. |
| GlobalProp.KillPairsOf | compiler/optimizations/copyPropagation.cpp:269-282 | The kill loops of one statement compute `KillPairs`. |
| GlobalProp.ClearPairsOf | compiler/optimizations/copyPropagation.cpp:272-279 | The inner loop nulls exactly the current block's entries that mention the symbol. |
| GlobalProp.CollectBlockPairs | compiler/optimizations/copyPropagation.cpp:261-297 | One block's statements, kill then insert, compute `SparseBlock`. |
| GlobalProp.CollectSparsePairs | compiler/optimizations/copyPropagation.cpp:256-300 | The sparse loop over all blocks computes `SparseAll`, recording each block's end. |
| GlobalProp.DensePairs | compiler/optimizations/copyPropagation.cpp:256-334 | The dense pairs each join two different symbols. There is one dense end per block, and the ends are ordered and never beyond the dense list. |
| GlobalProp.Analyze | compiler/optimizations/copyPropagation.cpp:209-422 | The collected pairs join two different symbols. COPY, KILL and IN have one row per block and one bit per pair. The entry block's IN is empty, a block without predecessors keeps all bits, and every other block's IN is the meet of its predecessors' OUT. |
| GlobalProp.GlobalCopyPropagation | compiler/optimizations/copyPropagation.cpp:209-451 | The arena ends as `GlobalPass`, the pass with the final loop as written. A function with at most one block is left unchanged. |
| GlobalProp.GlobalPassWithoutCandidates | compiler/optimizations/copyPropagation.cpp:209-451 | A function without candidate locals is left unchanged by the global pass, as written and corrected. |
| GlobalProp.GlobalInClearedByMeet | compiler/optimizations/copyPropagation.cpp:411-422 | A pair not in the OUT of one predecessor of a block is not in that block's IN. |
| GlobalProp.GlobalPassKeepsUseKilledOnOnePath | compiler/optimizations/copyPropagation.cpp:411-438 | A use in the first statement of a block is left alone by the final loop when every pair that could rewrite it is missing from the OUT of one predecessor. |
| GlobalExample.LiveAnalysis | compiler/optimizations/copyPropagation.cpp:209-422 | In the three-block example of "Findings", the pass collects `x := a` and `y := x`, and IN makes the first available at B1 only and the second at B2 only. |
| GlobalExample.LiveReadRebindsSeed | compiler/optimizations/copyPropagation.cpp:209-451 | The global pass as written turns `f(y)` into `f(a)` in that example. |
| GlobalExample.RecordedSeedKeepsCopy | compiler/optimizations/copyPropagation.cpp:209-451 | The global pass with the pairs' symbols recorded at collection time turns `f(y)` into `f(x)` in the same example. |
| GlobalRerun.RerunAnalysis | compiler/optimizations/copyPropagation.cpp:209-422 | On B0 `var a, x, y; x := a; y := x`, B1 `f(s)`, the pass collects `x := a` and `y := x` in B0, and IN makes both available at B1, whichever of a, x and y the call reads. |
| GlobalRerun.PassRewritesCallOnce | compiler/optimizations/copyPropagation.cpp:209-451 | One run of the global pass as written re-runs B1 from x -> a, y -> x: `f(y)` becomes `f(x)`, `f(x)` becomes `f(a)`, and `f(a)` stays. |
| GlobalRerun.RecordedPassRewritesCallOnce | compiler/optimizations/copyPropagation.cpp:209-451 | The pass with the recorded symbols does the same. |
| GlobalRerun.SecondRunChanges | compiler/optimizations/copyPropagation.cpp:209-451 | The pass as written is not idempotent: on that function a second run changes the result of the first exactly when the call reads y, as written. |
| GlobalRerun.SecondRecordedRunChanges | compiler/optimizations/copyPropagation.cpp:209-451 | Neither is the pass with the recorded symbols, on the same inputs. |
| RefProp.OccsWith | compiler/optimizations/copyPropagation.cpp:474 | The defs (or uses) of a symbol are exactly its occurrences with that role, in arena order. |
| RefProp.FindFromCounts | compiler/optimizations/copyPropagation.cpp:456-469 | The scan returns the move found so far when there is no further reference move. With exactly one and none found so far, it returns that one's statement. Otherwise it returns null. |
| RefProp.FindRefDef | compiler/optimizations/copyPropagation.cpp:454-470 | The result is present exactly when the variable has one reference-typed move def, and is that def's statement. With two or more it is null. |
| RefProp.FindRefDefIsMove | compiler/optimizations/copyPropagation.cpp:458-460 | The statement found is a move whose source has a reference type. |
| RefProp.AliasTarget | compiler/optimizations/copyPropagation.cpp:479-483 | Phase 1 applies only to a reference variable with a single defining move from a reference-typed plain symbol. |
| RefProp.FoldVarLeavesOnlyTheMove | compiler/optimizations/copyPropagation.cpp:484-500 | After folding `v` into a different symbol, no occurrence of another symbol changes. The only occurrences of `v` left are its def under the defining move, defs outside any call, and uses outside the tree. |
| RefProp.RebindUses | compiler/optimizations/copyPropagation.cpp:484-490 | Exactly the listed uses that still have a parent are rebound to the source. |
| RefProp.RebindDefs | compiler/optimizations/copyPropagation.cpp:491-500 | Exactly the listed defs under a call other than the defining move are rebound. |
| RefProp.FoldVarInPlace | compiler/optimizations/copyPropagation.cpp:479-506 | The in-place step for one variable computes `FoldVar`. |
| RefProp.UseAliveExists | compiler/optimizations/copyPropagation.cpp:517-556 | The variable is kept alive by its uses exactly when some use has a parent context with no rewrite. |
| RefProp.DefAliveExists | compiler/optimizations/copyPropagation.cpp:531-568 | The variable is kept alive by its defs exactly when some def other than the defining move is not under a move. |
| RefProp.UseEditsMembers | compiler/optimizations/copyPropagation.cpp:517-556 | Every rewritable use gets exactly its rewrite: a dereference, a member retarget or a copied definition. |
| RefProp.DefEditsMembers | compiler/optimizations/copyPropagation.cpp:531-568 | A def is rewritten exactly when it is not the defining move and its rewrite exists. |
| RefProp.ScanUses | compiler/optimizations/copyPropagation.cpp:518-530 | The use loop yields the uses' rewrites and the "still alive" flag. |
| RefProp.ScanDefs | compiler/optimizations/copyPropagation.cpp:531-539 | The def loop skips the defining move and yields the rewrites and the "still alive" flag. |
| RefProp.OutcomeRemovesOnlyDead | compiler/optimizations/copyPropagation.cpp:516-572 | The declaration and the statement of the first def are removed exactly when every use and every non-defining def was rewritten. Removal is all or nothing. |
| RefProp.EliminateRef | compiler/optimizations/copyPropagation.cpp:515-573 | Phase 2 on one variable computes `OutcomeOf`. |
| RefProp.ElimTarget | compiler/optimizations/copyPropagation.cpp:513-544 | Phase 2 applies only to a reference variable with a single defining move whose source takes an address or a member. |
| RefProp.SingleAssignmentRefPropagation | compiler/optimizations/copyPropagation.cpp:473-579 | Phase 1 folds every declared variable in order, in place. Phase 2 then reports, on the folded program, each eligible variable's rewrites and removal. |
| RefProp.NoReferencesNoChange | compiler/optimizations/copyPropagation.cpp:478-513 | Without reference variables, both phases change and remove nothing. |
| Driver.CopySteps | compiler/optimizations/copyPropagation.cpp:585-595 | Local propagation runs exactly when copy propagation is enabled. Global propagation runs exactly when flow analysis is enabled as well. It comes after the local one and is followed by the two eliminations. |
| Driver.CopyPropagation | compiler/optimizations/copyPropagation.cpp:582-596 | The loop makes the calls of `CopyPropagationTrace`, function by function. |
| Driver.RefPropagation | compiler/optimizations/copyPropagation.cpp:599-607 | The loop makes the calls of `RefPropagationTrace`. |
| Driver.BaselineRunsNothing | compiler/optimizations/copyPropagation.cpp:582-601 | Under the baseline flag neither driver runs anything. |
| Driver.CopyPropagationRuns | compiler/optimizations/copyPropagation.cpp:585-595 | Without the baseline flag, every function gets local propagation first (when enabled) and then the two eliminations. Global propagation runs on it exactly when both flags allow. |
| Driver.TraceAt | compiler/optimizations/copyPropagation.cpp:585 | Call `j` of function `f` is at position `f * steps + j` of the trace. |
| Driver.TraceSteps | compiler/optimizations/copyPropagation.cpp:585 | Every call in a trace runs one of the steps on one of the functions. |
| ThreadsSpec.FirstPending | runtime/threads-pthreads/chpl_cfg_threads.c:382 | The position found ends a run of begun entries and is the first entry not begun, if any. |
| ThreadsSpec.SkipOutcome | runtime/threads-pthreads/chpl_cfg_threads.c:381-389 | Skipping drops a prefix of begun entries, stops at the first entry not begun (or the end), and changes nothing else. |
| ThreadsSpec.SkipKeepsPool | runtime/threads-pthreads/chpl_cfg_threads.c:381-389 | Skipping keeps the pool sound. |
| ThreadsSpec.TakeHeadKeepsPool | runtime/threads-pthreads/chpl_cfg_threads.c:441-445 | Taking the head keeps the pool sound, begins the head entry and pops it. |
| ThreadsSpec.AddSpec | runtime/threads-pthreads/chpl_cfg_threads.c:534-550 | Exactly one new entry, appended to the arena and to the tail of the queue. The nodes and counters are unchanged. |
| ThreadsSpec.AddOutcomes | runtime/threads-pthreads/chpl_cfg_threads.c:536-548 | The new entry holds the task, is not begun and has no successor. The old tail now links to it, and no other entry changes. |
| ThreadsSpec.AddKeepsPool | runtime/threads-pthreads/chpl_cfg_threads.c:534-550 | Appending keeps the pool sound. The earlier entries keep their order and their begun flags. |
| ThreadsSpec.WakeCount | runtime/threads-pthreads/chpl_cfg_threads.c:507-516 | At most `howMany` threads are woken, never more than are idle, and fewer only when every idle thread is woken. So `threads >= running + waking` is kept. |
| ThreadsSpec.LaunchOutcomes | runtime/threads-pthreads/chpl_cfg_threads.c:466-499 | After a failure nothing changes any more. A thread is launched exactly when creation succeeds and a pending entry is left after skipping. Then the thread and running counts each rise by one, and the entry, not begun before, is begun and popped. Otherwise the entries are unchanged. The warning is set exactly on a failed attempt with a pending entry. |
| ThreadsSpec.LaunchKeepsPool | runtime/threads-pthreads/chpl_cfg_threads.c:466-499 | Launching keeps the pool sound. |
| ThreadsSpec.LaunchLoopPool | runtime/threads-pthreads/chpl_cfg_threads.c:526-527 | The launch loop keeps the pool sound, and never un-begins an entry. |
| ThreadsSpec.LaunchLoopBounds | runtime/threads-pthreads/chpl_cfg_threads.c:526-527 | The loop creates at most one thread per remaining task, each one running. It never reaches `maxThreads` by creating, and keeps the counters sound. |
| ThreadsSpec.ScheduleKeepsCounters | runtime/threads-pthreads/chpl_cfg_threads.c:504-528 | Scheduling keeps the state sound. It wakes exactly `WakeCount` threads and creates at most one thread per task left unserved. |
| ThreadsSpec.WorkerClaimOutcomes | runtime/threads-pthreads/chpl_cfg_threads.c:429-445 | A worker claims exactly when an entry not begun is left after skipping. It claims the first such entry, begins it and pops it, starts running, and decrements `waking` only if it is positive. With nothing to claim, the queue is emptied. |
| ThreadsSpec.WorkerClaimKeepsOk | runtime/threads-pthreads/chpl_cfg_threads.c:432-445 | A claim by an idle worker keeps the state sound. In particular, the waking count never goes negative. |
| ThreadsSpec.WorkerFinishSpec | runtime/threads-pthreads/chpl_cfg_threads.c:409-416 | Finishing marks the entry's task-list node completed, if there is one, and decrements the running count. Pool, queue and other nodes are unchanged. |
| ThreadsSpec.JoinOutcomes | runtime/threads-pthreads/chpl_cfg_threads.c:641-659 | A completed task leaves everything alone. An entry already begun is detached from its node. Otherwise the joiner claims the entry: it was not begun and now is, and `waking` is decremented only if positive. Queue, nodes and thread counts never change. |
| ThreadsSpec.JoinSpecKeepsOk | runtime/threads-pthreads/chpl_cfg_threads.c:648-659 | The joiner's step keeps the state sound. |
| ThreadsSpec.ClaimedOnce | runtime/threads-pthreads/chpl_cfg_threads.c:432-655 | Neither a worker nor the joiner claims an entry that is already begun. |
| ThreadsSpec.RingWalk | runtime/threads-pthreads/chpl_cfg_threads.c:591-592 | Walking a task list from its first node visits the nodes in order, the handle only at the end, and wraps to the first node. |
| ThreadsSpec.RingIsCycle | runtime/threads-pthreads/chpl_cfg_threads.c:591-592 | A task list whose handle occurs once repeats no node at all. |
| ThreadsSpec.AddToListSpec | runtime/threads-pthreads/chpl_cfg_threads.c:577-588 | Exactly one new node, holding the task and not completed. |
| ThreadsSpec.AddToListKeepsCycle | runtime/threads-pthreads/chpl_cfg_threads.c:582-587 | Adding to an empty list makes a one-node cycle. Adding to a cycle appends the node after the handle, pointing at the first node, and it becomes the handle. No other node changes. |
| ThreadsSpec.AddToListKeepsRefs | runtime/threads-pthreads/chpl_cfg_threads.c:577-588 | Links between entries and nodes stay inside their arenas. |
| ThreadsSpec.EnqueueOneOutcomes | runtime/threads-pthreads/chpl_cfg_threads.c:619 | Enqueueing a node adds a pool entry with the node's task, not serial, pointing back at the node. The node now points at the entry. Nothing else changes except links. |
| ThreadsSpec.EnqueueFirstKeepsPool | runtime/threads-pthreads/chpl_cfg_threads.c:617-622 | Enqueueing a group keeps the pool sound and no begun flag changes. |
| ThreadsSpec.EnqueueFirstQueue | runtime/threads-pthreads/chpl_cfg_threads.c:617-622 | The group's entries join the tail of the queue in list order. Entries already queued keep their places. |
| ThreadsSpec.EnqueueFirstEntry | runtime/threads-pthreads/chpl_cfg_threads.c:617-622 | The `j`-th new entry holds the task of the `j`-th node and points back at it. |
| ThreadsSpec.EnqueueFirstLinks | runtime/threads-pthreads/chpl_cfg_threads.c:617-622 | With distinct nodes, each node points at its own new entry. |
| ThreadsSpec.RingEnqueueLinks | runtime/threads-pthreads/chpl_cfg_threads.c:617-622 | Enqueueing every node of a task list after the first points the `j`-th node at the `j`-th new entry. |
| ThreadsSpec.JoinFirstKeepsOk | runtime/threads-pthreads/chpl_cfg_threads.c:635-670 | The joiner's loop keeps the state sound. |
| ThreadsSpec.JoinFirstSettles | runtime/threads-pthreads/chpl_cfg_threads.c:635-670 | Once the joiner has passed a node, the node's task has either completed or had its pool entry begun. |
| Threads.SerialFlags.constructor | runtime/threads-pthreads/chpl_cfg_threads.c:243-244 | No thread has a serial flag. |
| Threads.SerialFlags.Set | runtime/threads-pthreads/chpl_cfg_threads.c:282-298 | The thread reads its new state afterwards and other threads are unaffected. A missing flag is created only to hold `true`. |
| Threads.Scheduler.constructor | runtime/threads-pthreads/chpl_cfg_threads.c:229-236 | All counters are zero, the pool is empty with null head and tail, and there is no warning. |
| Threads.Scheduler.PopHead | runtime/threads-pthreads/chpl_cfg_threads.c:383-387 | The head moves to its successor. The tail is cleared when the pool empties. |
| Threads.Scheduler.SkipOverBegunTasks | runtime/threads-pthreads/chpl_cfg_threads.c:381-389 | The new state is `SkipSpec` of the old one, and head and tail stay the ends of the queue. |
| Threads.Scheduler.TakeHeadTask | runtime/threads-pthreads/chpl_cfg_threads.c:441-445 | The new state is `TakeHead` of the old one. |
| Threads.Scheduler.AddToTaskPool | runtime/threads-pthreads/chpl_cfg_threads.c:534-550 | The new state is `AddSpec` of the old one. The head is non-null and the tail is the new entry. |
| Threads.Scheduler.LaunchNextTask | runtime/threads-pthreads/chpl_cfg_threads.c:466-499 | The new state is `LaunchSpec` of the old one, for the creation outcome `created`. |
| Threads.Scheduler.LaunchHead | runtime/threads-pthreads/chpl_cfg_threads.c:478-498 | The new state is `LaunchHeadSpec` of the old one. |
| Threads.Scheduler.WakeIdle | runtime/threads-pthreads/chpl_cfg_threads.c:507-518 | The new state is `WakeSpec` of the old one, and the tasks left unserved are returned. |
| Threads.Scheduler.LaunchUpTo | runtime/threads-pthreads/chpl_cfg_threads.c:526-527 | The new state is `LaunchLoop` of the old one. |
| Threads.Scheduler.ScheduleNextTask | runtime/threads-pthreads/chpl_cfg_threads.c:504-528 | The new state is `ScheduleSpec` of the old one. |
| Threads.Scheduler.WorkerClaim | runtime/threads-pthreads/chpl_cfg_threads.c:429-445 | The new state and the claimed entry are `WorkerClaimSpec` of the old state. |
| Threads.Scheduler.ClaimHead | runtime/threads-pthreads/chpl_cfg_threads.c:434-445 | The new state and the claimed entry are `ClaimHeadSpec` of the old state. |
| Threads.Scheduler.WorkerFinish | runtime/threads-pthreads/chpl_cfg_threads.c:407-416 | The new state is `WorkerFinishSpec` of the old one. |
| Threads.Scheduler.Begin | runtime/threads-pthreads/chpl_cfg_threads.c:556-575 | The task runs inline exactly when serial mode is not ignored and the thread is serial; then the state is unchanged. Otherwise the task is added to the pool, and one task is scheduled. |
| Threads.Scheduler.AddToTaskList | runtime/threads-pthreads/chpl_cfg_threads.c:577-588 | The nodes become `AddToListSpec` of the old ones, the new handle is the new node, and nothing else changes. |
| Threads.Scheduler.RunSerially | runtime/threads-pthreads/chpl_cfg_threads.c:600-607 | The serial path runs the tasks of the list in list order, from the first node to the handle. |
| Threads.Scheduler.EnqueueNode | runtime/threads-pthreads/chpl_cfg_threads.c:618-620 | The new state is `EnqueueOne` of the old one. No list node's successor changes. |
| Threads.Scheduler.EnqueueGroup | runtime/threads-pthreads/chpl_cfg_threads.c:610-622 | Every node but the first is enqueued in list order, and the state becomes `EnqueueFirst` of the old one. Each of those nodes points at its own new entry. The first node and the count of enqueued tasks are returned. |
| Threads.Scheduler.JoinStep | runtime/threads-pthreads/chpl_cfg_threads.c:641-659 | The new state and the claimed entry are `JoinSpec` of the old state. |
| Threads.Scheduler.JoinRest | runtime/threads-pthreads/chpl_cfg_threads.c:635-670 | The joiner's loop over every node but the first yields `JoinFirst` of the old state, with the entries it claimed. |

## Left out

- Chapel's IR is abstracted. Building basic blocks, computing uses and defs, and collecting the ASTs are given as data: the statements, blocks and predecessors, each occurrence's role and parent, and each statement's occurrences in order.
- The type and symbol queries are fields of a symbol-info record: reference type, record type, complex type, constant, immediate, concurrent, variable.
- `forwardFlowAnalysis` is not part of this model's sources. `Dataflow.ForwardFlow` is a reference solver: the greatest fixpoint below the seed of the available-copies equations. Any solver with that contract fits. Where the real solver iterates differently, the final loop sees its result, not this one.
- GlobalProp.GlobalPass: the model does not claim that the global pass is idempotent, because it is not. On B0 `var a, x, y; x := a; y := x` and B1 `f(y)`, B1 is seeded with y -> x and x -> a. A use is rewritten through a single seed pair, so one run gives `f(x)` and a second run gives `f(a)`. `GlobalRerun.SecondRunChanges` proves this.
- GlobalProp.GlobalPassRecorded: the corrected pass is not idempotent either, on the same function (`GlobalRerun.SecondRecordedRunChanges`).
- Reference propagation does not model the AST surgery itself. Phase 2 reports each variable's outcome instead: the rewrites of its occurrences and the statement removed. Each variable is judged on the program as folded by phase 1, so a rewrite made for one variable is not seen when the next is judged.
- Reference propagation removes the statement of the first recorded def, as the code does. The model does not claim that this statement is the defining move.
- Dead-variable and dead-expression elimination are only named as steps of the drivers.
- Memory management (`chpl_alloc`, `chpl_free`, `new`/`delete`) is arena ownership. Debug printing, warnings, the lock-report machinery and pthread calls are left out.
- Real thread creation is an oracle: `LaunchNextTask` takes the outcome `created`, and the launch loop takes `canCreate`. The message of the warning is not modelled.
- Interleaving is not modelled. Each method is one critical section, and the waits and signals on the wake condition are left out. So are `chpl_begin_helper`'s blocking wait for a task and its signal to another waker. `Threads.Scheduler.WorkerClaim` is the claim a worker does after the pool became non-empty.
- Counters are unbounded integers: the model does not capture C `int` overflow. `howMany` is a `nat`.
- `chpl_process_task_list` is modelled in its parts: `RunSerially`, `EnqueueGroup`, `ScheduleNextTask` and `JoinRest`. They are not composed into one method, because other threads run between its critical sections and it runs user tasks outside the lock. Its assertion that the list has at least two nodes is a precondition of these parts.
- A cobegin with fewer than two statements never reaches `chpl_process_task_list`, which asserts that the list has at least two nodes (runtime/threads-pthreads/chpl_cfg_threads.c:595-597). The model keeps that as a precondition.
- The enqueue loop of `chpl_process_task_list` enqueues a node first and then reads its successor (runtime/threads-pthreads/chpl_cfg_threads.c:619-620). The model reads the successor first and then enqueues. Under the lock the two orders coincide, and `EnqueueNode` proves that no successor changes.
- Threads.Scheduler.JoinRest and Threads.Scheduler.EnqueueGroup require each list to be a ring whose handle occurs once, the shape `AddToTaskList` builds. `ThreadsSpec.RingIsCycle` proves that such a ring repeats no node.
- Threads.Scheduler.WorkerClaim: requires the caller to be an idle worker (`waking > 0` or `running < threads`), as in the source, where a worker decrements `running` before it waits.
- Threads.SerialFlags.Set: the recreation of the pthread key when `pthread_setspecific` fails is not modelled. Setting a flag always succeeds.
- Threads.Scheduler.Begin: running the task inline is not modelled; only the decision and the pool path are.

## Findings

| source | as written | input that shows it | evidently intended | confidence | as-written member | corrected member |
|---|---|---|---|---|---|---|
| compiler/optimizations/copyPropagation.cpp:429-435 | The final loop seeds block `i` with `LHS.v[j]->var` and `RHS.v[j]->var`, read when the block is reached. Blocks re-propagated earlier in the same loop may have rebound the rhs occurrence of a pair. | B0: `var a, x, y; x := a`. B1: `y := x; a := g()`. B2: `f(y)`. IN makes `x := a` available at B1 and `y := x` at B2. Re-propagating B1 rewrites `y := x` to `y := a`, so B2 is seeded with `y -> a` and `f(y)` becomes `f(a)`. But `a` was redefined in B1. | Seed each block with the copies as collected: `y -> x`, giving `f(x)`. This seeding loses the cross-block chain the live read follows when nothing redefines its source. On B0 `x := a`, B1 `y := x`, B2 `f(y)` it gives `f(x)` where the live read gives `f(a)`. Neither form is idempotent. | not executed | GlobalProp.GlobalPass, GlobalProp.FinalPhaseAsWritten, GlobalExample.LiveReadRebindsSeed | GlobalProp.GlobalPassRecorded, GlobalProp.FinalPhase, GlobalExample.RecordedSeedKeepsCopy |

The methods (`GlobalProp.FinalPropagation`, `GlobalProp.GlobalCopyPropagation`) follow the loop as written. `GlobalProp.GlobalPassRecorded` is the intended pass: it seeds each block with `SymPairs` of the arena as it was before the final loop. `GlobalProp.FinalSeedSound` and the `SeedMap` lemmas are proved about that seeding.
