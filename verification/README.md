# Verification of the assembly optimiser

A model, in Dafny, of the parts of the Solidity compiler that change code or fix layouts and must not change what a
contract means: the assembly-level optimiser in `libevmasm`, and two algorithms of the front end. Each class of the
program that works step by step is a class here, with the same fields and loops; each exception is an error result.

Everything about code is stated on one machine (`Evm.dfy`): a stack of 256-bit words, storage, byte-addressed memory,
and straight-line assembly items. Programs with jumps run on a second machine (`LabelMachine.dfy`) in which pushed tags
are opaque labels and the effect of every other instruction is given from outside, as a function of its arguments and
of the rest of the world. Only PC sees where it is: it pushes the address of its position, and the results on whole
programs say what becomes of it.

## Parts

* **Common subexpression elimination.** `Rules`, `Expressions` and `ExpressionClasses` are the equivalence classes and
  their simplification; `Knowledge`, `Tracking` and `KnownState` the abstract interpreter; `StoreHistory`,
  `Generation`, `Production`, `Layout`, `Dependencies`, `Scheduling`, `GeneratorSteps` and `CSECodeGenerator` the code
  generator; `Chunks`, `ChunkEquivalence`, `BlockEnds` and `CommonSubexpressionEliminator` tie both together;
  `Recomputation` is about which classes generated code computes, and which of them come out the same once
  more; `NextChunk` and `BlockOptimiser` go on from one chunk to the next, to a whole basic block; `AskedAgain` shows
  where that fails. The contract of `GetOptimizedItems` is about one chunk: the code that comes out has the outcome of
  the chunk that went in, on every machine that the knowledge at its beginning describes, and the knowledge kept for
  the next chunk describes every machine from which execution goes on. The main result is the contract of
  `OptimiseBlock`: block and output have the same traces, whatever calls and other instructions that are not tracked
  lead to, unless something is asked once more (see Findings).
* **Block deduplication.** `Opcodes` and `Blocks` order blocks by their normalised items, `Deduplication` is the
  bisimulation between a program and the one with merged tags, `BlockDeduplicator` the algorithm. The main result is
  `DeduplicationPreserves`.
* **Constant optimiser.** `Decomposition` is the search for a routine that computes a constant, `ConstantRoutines` what
  the routines do, `ConstantReplacement` the simulation between a program and the one with the constant replaced,
  `ConstantOptimiser` the optimiser. The main result is `OptimisedSimulates`.
* **Linearisation of base contracts** (`Linearization`) and **storage layout** (`StorageOffsets`).

A valuation gives every class a value: it fixes the words the environment pushes and answers, the values of unknown
stack elements, the states of storage and memory by sequence number, and, class by class, what has been recorded. What
CALL, GAS and the like have left on the stack is recorded, as it may be something else each time. A call begins a new
era, in which BALANCE and EXTCODESIZE may have other answers; those of the eras before are recorded. The class results
hold for all valuations; the run results choose the one that belongs to the run.

A lemma carries `{:induction false}` where Dafny would otherwise add an induction hypothesis of its own; inductions are
recursive calls.

## Findings

* `findRepresentation` computes a wrong number when it takes a negative remainder off a value whose upper part is not
  zero: the upper part would have to be one higher (libevmasm/ConstantOptimiser.cpp:188-189 changes the remainder only).
  `Decomposition.CarryIsLost` gives a constant, `Decomposition.ExactUnlessCarryLost` the exact condition: the routine is
  right if and only if no split that is chosen does this.
* The code generator asks for GAS, PC or MSIZE once more if their class is known, say to be in memory, but no longer on
  the stack (libevmasm/CommonSubexpressionEliminator.cpp:301-340 has no check): `AskedAgain.GenerateGas` generates such
  code, `AskedAgain.GasAskedAgain` shows that GAS PUSH 0 MSTORE GAS PUSH 0 MLOAD SUB and its output differ on every
  machine. A class is computed if and only if it is not on the stack before the chunk and is needed for the stack after
  it or for a store (`GenerateCode`, `Recomputation.AllAccounted`), and computing it once more gives its value if and
  only if that is not recorded (`Recomputation.SameAgainExactly`). The output of a chunk asks no more than the chunk if
  and only if all classes computed are straight-line code (`BlockOptimiser.CodeAsks`), and the output of a block that
  can come to its end is right if and only if it asks no more (`AskedAgain.ReplacesExactly`), given that nothing from
  before a call is asked once more. A block without these three instructions is safe (`OptimiseBlock`). CALL, CALLCODE,
  DELEGATECALL and CREATE are never generated, as they take more than two arguments.
* The same happens to BALANCE and EXTCODESIZE after a call. libevmasm/SemanticInformation.cpp:141-143 says that they
  depend on previous calls, but libevmasm/Assembly.cpp:334-346 carries what is known over the call, and the generator
  asks once more: `AskedAgain.BalanceIsRecorded` is the guard at the balance of the contract,
  `AskedAgain.BalanceAskedAgain` shows that a block that keeps its balance in memory across a CREATE and its output
  differ on every machine. The exact conditions are those above: the class is needed, not on the stack before the chunk,
  and from before the last call. A block in which BALANCE and EXTCODESIZE only come after the last call is safe
  (`OptimiseBlock`).
* The loop of the deduplicator need not end if a program defines a tag twice: `BlockDeduplicator.RoundsNeverEnd` gives
  two programs that turn into each other (libevmasm/BlockDeduplicator.cpp:75-101 looks tags up by their number, and
  the last definition counts). If no tag is defined twice, it ends, and `Deduplicate` requires that. This is sufficient
  only: with some repeated tags it ends as well.
* The deduplicator merges equal blocks even if they contain PC (libevmasm/BlockDeduplicator.cpp:92-98), which then
  pushes another address: `BlockDeduplicator.PcIsMerged` gives a program. What can be seen of a run stays the same all
  the time if and only if no step executes PC at two places (`Deduplication.RunSimulates`), which is so if the code runs
  into PC from no tag on (`Deduplication.NoPcToMerge`).
* The constant optimiser moves PC to another address (libevmasm/ConstantOptimiser.cpp:102-116):
  `ConstantReplacement.PcIsMoved` gives programs, and `ConstantReplacement.ExecuteMoves` says that an item does the same
  at its new position if and only if it is not PC or both positions have one address.

## Model

| member | source | states |
|---|---|---|
| Words.AndLaws | libevmasm/ExpressionClasses.cpp:290-296 | bitwise AND, defined bit by bit, is commutative, associative and bounded, which the associative rules need (likewise OrLaws and XorLaws) |
| Words.SubIsAddNegated | libevmasm/ExpressionClasses.cpp:320-325 | x - a and x + (0 - a) are the same word |
| Words.TruncBounds | libdevcore/Common.h:161-178 | signed division and remainder, truncating towards zero, stay in the range in which the conversion back to unsigned is defined |
| BigEndian.WordOfBytes | libdevcore/CommonData.h:99-121 | decoding a byte string is bounded by its length, and encoding the result gives the byte string back |
| BigEndian.BytesOfWord | libdevcore/CommonData.h:99-121 | encoding a number that fits and decoding it gives the number back |
| Evm.LoadStored | libevmasm/KnownState.cpp:318-338 | a word stored in memory reads back |
| Evm.LoadElsewhere | libevmasm/KnownState.cpp:325-328 | a store changes no word whose 32 bytes do not overlap it |
| Evm.StoreSameWord | libevmasm/KnownState.cpp:320-322 | storing the word that is already there changes no byte |
| Evm.RunAppend | libevmasm/CommonSubexpressionEliminator.cpp:502-506 | running items one after the other composes, failures included |
| Rules.FoldByteSound | libevmasm/ExpressionClasses.cpp:234 | the shift and mask of the BYTE rule pick the byte that the opcode picks |
| Rules.FoldSignExtendSound | libevmasm/ExpressionClasses.cpp:238-244 | setting or clearing all bits above the tested one is sign extension |
| Rules.TableSound | libevmasm/ExpressionClasses.cpp:214-342 | every rule that can be reached is an identity on 256-bit words, for every binding of its groups |
| Rules.TableDecreases | libevmasm/ExpressionClasses.cpp:214-342 | every rule makes the expression smaller, or keeps its size and lowers its weight, so rewriting stops |
| Rules.TableWellFormed | libevmasm/ExpressionClasses.cpp:214-342 | each right-hand side only mentions groups that the pattern binds, and its sub-templates are again heads of deterministic operations |
| Rules.TableOrdered | libevmasm/ExpressionClasses.cpp:300-317 | a rule that only moves constants is never reached by an expression that an earlier rule would merge, which its measure relies on |
| Expressions.ClassValueIs | libevmasm/ExpressionClasses.h:53-61 | the value of a class is the value of its representative, whose arguments are earlier classes, unless that value is recorded: that of a call or counter, and that of a query made before the last call |
| Expressions.StillConsistent | libevmasm/ExpressionClasses.cpp:76-82 | expressions keep the value of their class while further classes are added |
| Expressions.SwappedValue | libevmasm/ExpressionClasses.cpp:60-61 | sorting the arguments of a commutative operation does not change its value |
| Expressions.RuleMatched | libevmasm/ExpressionClasses.cpp:409-425 | if a rule matches an expression, its groups are bound to classes, to constants where it asks for them, its right-hand side uses bound groups only, and the pattern is no larger than the expression |
| Expressions.MatchedValue | libevmasm/ExpressionClasses.cpp:409-425 | an expression has the value of a pattern that matches it, under the binding |
| Expressions.RuleMatchedValue | libevmasm/ExpressionClasses.cpp:356-371 | the right-hand side of a rule that matches has the value of the expression |
| Expressions.RuleDescends | libevmasm/ExpressionClasses.cpp:345-392 | the measure of find, tryToSimplify and rebuildExpression falls in every recursive call that a rule causes |
| Expressions.RebuiltBuild | libevmasm/ExpressionClasses.cpp:383-392 | a rebuilt template has the value of the template if its rebuilt arguments have theirs |
| ExpressionClasses.ExpressionClasses.Find | libevmasm/ExpressionClasses.cpp:47-83 | terminates; keeps every stored expression equal to its class under every valuation of the opaque leaves; the class returned has the value of the expression asked for, does not depend on more than it, and is a new one if the expression is not deterministic; older classes are untouched |
| ExpressionClasses.ExpressionClasses.TryToSimplify | libevmasm/ExpressionClasses.cpp:345-381 | a class that is returned is what the first rule that matches makes of the expression, or if none does, of the expression with its arguments swapped, and has its value; there is none exactly if no rule matches either, or the operation is not deterministic |
| ExpressionClasses.ExpressionClasses.FirstMatch | libevmasm/ExpressionClasses.cpp:356-371 | the rule found is the first one that matches |
| ExpressionClasses.ExpressionClasses.RebuildExpression | libevmasm/ExpressionClasses.cpp:383-392 | the class returned has the value of the template under the binding |
| ExpressionClasses.ExpressionClasses.NewClass | libevmasm/ExpressionClasses.cpp:106-114 | adds a class for an unknown value |
| ExpressionClasses.ExpressionClasses.KnownNonZero | libevmasm/ExpressionClasses.cpp:135-138 | says yes only for classes that are non-zero under every valuation |
| ExpressionClasses.ExpressionClasses.KnownToBeDifferent | libevmasm/ExpressionClasses.cpp:116-120 | says yes only for classes that differ under every valuation |
| ExpressionClasses.ExpressionClasses.KnownToBeDifferentBy32 | libevmasm/ExpressionClasses.cpp:122-128 | says yes only for classes that are at least 32 apart under every valuation, so that two words in memory do not overlap |
| ExpressionClasses.FarApart | libevmasm/ExpressionClasses.cpp:125-127 | a difference outside -31 to 31 modulo 2**256 means a distance of at least 32 |
| Knowledge.LoadHolds | libevmasm/KnownState.cpp:309-316 | what is known stays true when the result of a load is recorded |
| Knowledge.StoreHolds | libevmasm/KnownState.cpp:289-302 | what is known stays true after a store if its two arguments are dropped and the entries recorded afterwards are true of the new content |
| Knowledge.ContentWritten | libevmasm/KnownState.cpp:290-302 | the entries that a store provably leaves alone, and the entry it makes, are true of the content after it |
| Knowledge.ExchangedHolds | libevmasm/KnownState.cpp:267-279 | what is known stays true after a SWAP when the two elements are exchanged |
| Knowledge.ReadAfterWrite | libevmasm/KnownState.cpp:290-302 | a retained storage entry is read unchanged if its slot differs or its value is the one written; a memory entry if it is 32 bytes away |
| Knowledge.ForgottenHolds | libevmasm/KnownState.cpp:150-155 | what is known stays true across an unknown instruction when the contents it may change are forgotten |
| Tracking.DescribesOtherFuture | libevmasm/KnownState.cpp:85-171 | what is known does not depend on what is stored later |
| Tracking.LoadStep | libevmasm/KnownState.cpp:126-138 | a load that yields the recorded class is a sound abstract step |
| Tracking.StoreStep | libevmasm/KnownState.cpp:125-133 | a store that keeps only surviving entries is a sound abstract step |
| Tracking.RedundantStore | libevmasm/KnownState.cpp:286-288 | a store of the value known to be there does nothing |
| Tracking.OpaqueStep | libevmasm/KnownState.cpp:144-162 | any other instruction is a sound abstract step whatever it does to what it invalidates, and whatever a call or counter leaves on the stack; what is asked has a class of its own |
| Tracking.FedFrom | libevmasm/KnownState.cpp:85-171 | a sound step after revealing elements is a sound step from the state before |
| Tracking.FedStore | libevmasm/KnownState.cpp:125-133 | feeding a store is sound: every machine that the state described is described after the step |
| Tracking.FedLoad | libevmasm/KnownState.cpp:126-138 | feeding a load is sound |
| Tracking.FedOther | libevmasm/KnownState.cpp:144-162 | feeding any other instruction is sound |
| KnownState.KnownState.StackElement | libevmasm/KnownState.cpp:239-246 | gives an element that was unknown its own class without changing what the state describes |
| KnownState.KnownState.SwapStackElements | libevmasm/KnownState.cpp:267-279 | exchanges two elements after creating them |
| KnownState.KnownState.StorageKept | libevmasm/KnownState.cpp:290-297 | keeps entries only if they survive the store under every valuation, and all that hold the same value |
| KnownState.KnownState.MemoryKept | libevmasm/KnownState.cpp:324-329 | keeps entries only if the address is known to be 32 away |
| KnownState.KnownState.StoreInStorage | libevmasm/KnownState.cpp:281-307 | no operation, and nothing changes, exactly if the value is known to be there already; otherwise the operation with the next number, and only entries that are the same as before and survive stay next to the new one, among them all that hold the value |
| KnownState.KnownState.StoreInMemory | libevmasm/KnownState.cpp:318-338 | the same for memory, where an entry that holds the value has to be 32 bytes away as well |
| KnownState.KnownState.LoadFromStorage | libevmasm/KnownState.cpp:309-316 | the class known for the slot, and nothing changes; otherwise the class of a load with the current sequence number, which is recorded for the slot; either way the class has the value that is loaded |
| KnownState.KnownState.LoadFromMemory | libevmasm/KnownState.cpp:340-347 | the same for memory |
| KnownState.KnownState.FeedItem | libevmasm/KnownState.cpp:85-171 | for every item: if the state describes a machine, it describes the machine after the concrete step, and the operation returned, if any, is the effect of the step on storage and memory; an unknown item is an error |
| StoreHistory.SameStore | libevmasm/CommonSubexpressionEliminator.cpp:145-171 | leaving out stores that are all overwritten later at the same slot gives the same storage and memory |
| StoreHistory.SameLoad | libevmasm/CommonSubexpressionEliminator.cpp:234-298 | a load sees the same word if the stores left out before it are overwritten or known not to touch it |
| Generation.SwapRemoved | libevmasm/CommonSubexpressionEliminator.cpp:493-499 | taking a SWAP away that is repeated leaves the same stack as performing it twice |
| Generation.DupYields | libevmasm/CommonSubexpressionEliminator.cpp:464-473 | a DUP produces the layout with the element copied to the top |
| Generation.PlainYields | libevmasm/CommonSubexpressionEliminator.cpp:396-406 | an operation on the topmost classes produces the layout with its class on top |
| Generation.LoadYields | libevmasm/CommonSubexpressionEliminator.cpp:396-406 | a load produces its class if the store generated so far has the value at its slot |
| Generation.StoreYields | libevmasm/CommonSubexpressionEliminator.cpp:407-415 | a store performs the next operation |
| Production.SwapProduces | libevmasm/CommonSubexpressionEliminator.cpp:475-500 | the items after appending or removing a SWAP always produce the layout with two elements exchanged |
| Production.LoadProduces | libevmasm/CommonSubexpressionEliminator.cpp:234-298 | a load that was made to depend on the latest store to each slot that might alias sees what it sees in the original order |
| Production.FinishedStore | libevmasm/CommonSubexpressionEliminator.cpp:145-171 | when the last store to each slot is done, storage and memory are those of the original |
| Production.ProducedDelivers | libevmasm/CommonSubexpressionEliminator.cpp:132-214 | items that produce the target layout and the last stores deliver stack, storage and memory |
| Layout.PushedInverse | libevmasm/CommonSubexpressionEliminator.cpp:471-472 | pushing keeps the positions of the classes the exact inverse of the stack |
| Layout.PoppedInverse | libevmasm/CommonSubexpressionEliminator.cpp:458-460 | so does popping |
| Layout.ExchangedInverse | libevmasm/CommonSubexpressionEliminator.cpp:485-492 | so does swapping |
| Layout.WholeTarget | libevmasm/CommonSubexpressionEliminator.cpp:173-192 | a stack that agrees with the target in every position, and is as high, is the target |
| Dependencies.OneMoreGrouped | libevmasm/CommonSubexpressionEliminator.cpp:128-129 | the operations grouped by target and slot keep their order |
| Dependencies.OneMoreCovered | libevmasm/CommonSubexpressionEliminator.cpp:246-297 | one more slot is independent of a load, or its latest store before the load is needed |
| Scheduling.FirstReady | libevmasm/CommonSubexpressionEliminator.cpp:154-171 | in the order of the sequence numbers, everything that a store or load has to come after is done when its turn comes |
| Scheduling.AllFinished | libevmasm/CommonSubexpressionEliminator.cpp:146-147 | if the last store of each slot is done, each store is done or overwritten by one that is |
| CSECodeGenerator.CSECodeGenerator.AddDependencies | libevmasm/CommonSubexpressionEliminator.cpp:216-299 | terminates, and the pairs added are closed: for every class needed its arguments, and for every load the latest store to each slot that might alias, are available or needed |
| CSECodeGenerator.CSECodeGenerator.AddStores | libevmasm/CommonSubexpressionEliminator.cpp:234-298 | each slot written before a load is known to be independent, or the latest such store is needed by the load |
| CSECodeGenerator.CSECodeGenerator.LatestBefore | libevmasm/CommonSubexpressionEliminator.cpp:291-294 | the operation with the greatest sequence number before the load |
| CSECodeGenerator.CSECodeGenerator.RemovableIsAbove | libevmasm/CommonSubexpressionEliminator.cpp:428-448 | what may be removed lies above the part of the target that is already in place |
| CSECodeGenerator.CSECodeGenerator.ClassElementPosition | libevmasm/CommonSubexpressionEliminator.cpp:418-426 | the topmost position of the class; an error exactly if there is none |
| CSECodeGenerator.CSECodeGenerator.AppendDup | libevmasm/CommonSubexpressionEliminator.cpp:464-473 | copies the element to the top; the items produce the new layout, the positions stay its inverse |
| CSECodeGenerator.CSECodeGenerator.AppendOrRemoveSwap | libevmasm/CommonSubexpressionEliminator.cpp:475-500 | exchanges two elements and nothing else, or does nothing if they are one; the items produce the new layout even if two equal SWAPs cancel |
| CSECodeGenerator.CSECodeGenerator.RemoveStackTopIfPossible | libevmasm/CommonSubexpressionEliminator.cpp:450-462 | pops an element at most, never one of the target positions already in place |
| CSECodeGenerator.CSECodeGenerator.PlaceArguments | libevmasm/CommonSubexpressionEliminator.cpp:340-389 | on success the arguments are on top of the stack in their order, and there are at most two of them, so that no call is ever generated |
| CSECodeGenerator.CSECodeGenerator.DropSwap | libevmasm/CommonSubexpressionEliminator.cpp:391-395 | taking SWAP1 away before a commutative operation exchanges its two arguments on top, and changes nothing else |
| CSECodeGenerator.CSECodeGenerator.GenerateClassElement | libevmasm/CommonSubexpressionEliminator.cpp:301-416 | terminates; on success the class is on the stack or performed, everything that was available still is, nothing with a sequence number was generated unless it was asked for, and only classes that are needed were |
| CSECodeGenerator.CSECodeGenerator.SequencedExpressions | libevmasm/CommonSubexpressionEliminator.cpp:154-166 | all needed operations with a sequence number, none from before the chunk |
| CSECodeGenerator.CSECodeGenerator.PerformSequenced | libevmasm/CommonSubexpressionEliminator.cpp:168-171 | performs them once each, in the order of their numbers |
| CSECodeGenerator.CSECodeGenerator.GenerateTargets | libevmasm/CommonSubexpressionEliminator.cpp:173-192 | every target position up to the current one is and stays in place |
| CSECodeGenerator.CSECodeGenerator.GenerateCode | libevmasm/CommonSubexpressionEliminator.cpp:132-214 | if it returns normally, running the items, if they can be run, on any stack that matches the initial layout yields exactly the target layout, and storage and memory as all store operations in their order leave them, provided that no class that is computed once more has a recorded value; a class is computed exactly if it is not in the initial layout and it is in the target, or is an operation with a number, or an argument of one that is computed; the items can all be run exactly if all items of these classes can, and none of them takes more than two arguments |
| Recomputation.SameAgainExactly | libevmasm/SemanticInformation.cpp:128-148 | computing a class once more is sure to give its value exactly if that value is not recorded: the item is no call, no counter, and no query made before the last call |
| Recomputation.AllAccounted | libevmasm/CommonSubexpressionEliminator.cpp:301-340 | if only needed classes are ever computed, and their arguments before them, then once all that is wanted is there, exactly the needed classes have been computed |
| Recomputation.AllRunWithoutCounters | libevmasm/CommonSubexpressionEliminator.cpp:382-387 | code that computes classes with at most two arguments contains no call; without GAS, PC and MSIZE it is straight-line code |
| Chunks.OneMoreFollowed | libevmasm/CommonSubexpressionEliminator.cpp:73-78 | if the knowledge at the end of what was fed describes every run of it, and the operations collected are its effect on storage and memory, the same is true after one more item |
| ChunkEquivalence.Prophecy | libevmasm/KnownState.cpp:299-304 | every valuation can be extended to one in which the numbered states of storage and memory are those of the run |
| ChunkEquivalence.GeneratedSameRuns | libevmasm/CommonSubexpressionEliminator.cpp:132-214 | straight-line code that delivers the target layout of a chunk, and computes no class whose value is recorded, does exactly what the chunk does, for every machine that the initial knowledge describes |
| ChunkEquivalence.EndingSame | libevmasm/CommonSubexpressionEliminator.cpp:80-120 | a conditional jump whose condition is known, and a return of nothing, do what their replacement does |
| CommonSubexpressionEliminator.CommonSubexpressionEliminator.FeedItems | libevmasm/CommonSubexpressionEliminator.h:168-180 | feeds the items up to the first that breaks the block, remembers that one, and looks at none after it |
| CommonSubexpressionEliminator.CommonSubexpressionEliminator.OptimizeBreakingItem | libevmasm/CommonSubexpressionEliminator.cpp:80-120 | the chunk and its last item still have the same outcome, and the last item asks what it asked before |
| CommonSubexpressionEliminator.CommonSubexpressionEliminator.GetOptimizedItems | libevmasm/CommonSubexpressionEliminator.cpp:34-71 | if it returns normally, the code computes exactly the classes that the chunk needs and that are not on the stack before it, none of them by a call; if they can be computed by straight-line code, and none of their values is recorded, the optimized items have the outcome of the chunk: same stack, storage and memory, same way of leaving it, on every machine that the initial knowledge describes; also if it does not return normally, the knowledge kept for the next chunk describes every machine from which execution goes on, in a new era after a call; an error for a chunk that ends in an unknown item |
| CommonSubexpressionEliminator.CommonSubexpressionEliminator.NextState | libevmasm/CommonSubexpressionEliminator.cpp:38-41 | the state for the next chunk is the present one after the item that ends the chunk |
| CommonSubexpressionEliminator.EndingChanged | libevmasm/CommonSubexpressionEliminator.cpp:80-120 | every change that is made to the end of a chunk keeps its outcomes |
| NextChunk.OperationDescribed | libevmasm/KnownState.cpp:144-162 | a machine that an instruction may lead to, whatever its result and its effect on what it invalidates, is described by the knowledge after it |
| NextChunk.RenewedValue | libevmasm/SemanticInformation.cpp:141-143 | no class changes its value at a call, whatever BALANCE and EXTCODESIZE answer from then on, if the answers got so far are recorded |
| NextChunk.NextEra | libevmasm/SemanticInformation.cpp:128-148 | what is known before a call is known after it, in any environment in which only BALANCE and EXTCODESIZE differ |
| NextChunk.NextDescribed | libevmasm/CommonSubexpressionEliminator.cpp:34-49 | what is known after the item that ends a chunk describes every machine from which execution goes on, also when the chunk was given another end |
| NextChunk.NothingKnown | libevmasm/KnownState.cpp:85-171 | every machine is described where nothing is known, in any era |
| BlockOptimiser.TraceChunk | libevmasm/Assembly.cpp:334-363 | what can be observed from a chunk on is its outcome and what comes after that |
| BlockOptimiser.ChunkReplaces | libevmasm/Assembly.cpp:334-363 | straight-line code with the outcomes of a chunk can take its place, before anything that can take the place of the rest |
| BlockOptimiser.CodeAsks | libevmasm/Assembly.cpp:345-361 | new code for a chunk asks no less than the chunk, and as often as the chunk exactly if it is straight-line code |
| BlockOptimiser.OneAfterTheOther | libevmasm/Assembly.cpp:334-363 | replacing one chunk after another composes |
| BlockOptimiser.OptimiseChunk | libevmasm/Assembly.cpp:336-362 | the next chunk, or code for it that is shorter; the chunk stays if no code could be generated; the new code may take its place if it asks no more than the chunk, and nothing from before the last call once more; the rest of the block starts with knowledge that describes it |
| BlockOptimiser.OptimiseBlock | libevmasm/Assembly.cpp:325-363 | the output is not longer than the block and asks no less; if it asks no more, and nothing from before a call once more, it has the same traces as the block, from every machine that is described at its beginning, whatever the items that ask lead to, answers of BALANCE and EXTCODESIZE after calls included; it asks no more if the block has no GAS, PC and MSIZE, and nothing from before a call once more if BALANCE and EXTCODESIZE only come after the last call, given that the knowledge at the beginning has none of these either |
| BlockOptimiser.ReplacesEverywhere | libevmasm/Assembly.cpp:325-331 | for a block that starts with no knowledge, the traces are the same on every machine |
| AskedAgain.CompleteCounts | libevmasm/Assembly.cpp:325-363 | a run that comes to its end has one exit for each item that asks, and one more |
| AskedAgain.ReplacesExactly | libevmasm/Assembly.cpp:325-363 | if the block can come to its end at all, output that is right when it asks no more is right exactly then |
| AskedAgain.GenerateGas | libevmasm/CommonSubexpressionEliminator.cpp:301-340 | for a class of GAS that is known but no longer on the stack, the generator asks for the gas once more |
| AskedAgain.GasAskedAgain | libevmasm/Assembly.cpp:345-346 | GAS PUSH 0 MSTORE GAS PUSH 0 MLOAD SUB and the shorter GAS PUSH 0 MSTORE GAS GAS SUB: on every machine, some answers tell them apart |
| AskedAgain.BalanceIsRecorded | libevmasm/SemanticInformation.cpp:141-143 | the balance of the contract, asked for before a call and wanted after it, is needed, not there, and not sure to be the same again |
| AskedAgain.BalanceAskedAgain | libevmasm/Assembly.cpp:334-346 | a block that keeps its balance in memory across a CREATE that pays out 7, and the shorter one that asks for it afterwards: on every machine, a CREATE that changes the balance tells them apart |
| Opcodes.CodeDecodes | libevmasm/Instruction.cpp:165-298 | decoding the byte of an instruction gives the instruction back |
| Opcodes.CodeInjective | libevmasm/Instruction.cpp:165-298 | no two instructions share a byte |
| Blocks.LexTotal | libevmasm/BlockDeduplicator.cpp:48-73 | if of two blocks neither comes first, their normalised items are the same |
| BlockDeduplicator.BlockIterator.Advance | libevmasm/BlockDeduplicator.cpp:105-118 | the iterator delivers the items of the block in turn, skipping tags and stopping where control flow does |
| BlockDeduplicator.Precedes | libevmasm/BlockDeduplicator.cpp:48-73 | the comparator is the lexicographic order on the normalised blocks, each of which depends on its own position only |
| BlockDeduplicator.TagReplacement | libevmasm/BlockDeduplicator.cpp:78-90 | maps the tag of each block that is not the first of its kind to the tag of the first one, the last definition of a tag counting |
| BlockDeduplicator.ReplacementFrom | libevmasm/BlockDeduplicator.cpp:78-90 | each tag in the map is that of a block and is replaced by the tag of the first block with the same normalised items, and no such block is left out |
| BlockDeduplicator.ReplacementIsValid | libevmasm/BlockDeduplicator.cpp:78-90 | if no tag is defined twice, the map only merges blocks with the same normalised items |
| BlockDeduplicator.RoundsNeverEnd | libevmasm/BlockDeduplicator.cpp:75-101 | two programs in which a tag is defined twice, each of which one round turns into the other, so that the loop does not end |
| BlockDeduplicator.PcIsMerged | libevmasm/BlockDeduplicator.cpp:92-98 | a program with two equal blocks that push PC: one round merges them, and what can be seen after three steps is the same exactly if both positions have one address |
| BlockDeduplicator.BlockDeduplicator.Apply | libevmasm/BlockDeduplicator.cpp:92-98 | renames the pushed tags in place |
| BlockDeduplicator.BlockDeduplicator.Deduplicate | libevmasm/BlockDeduplicator.cpp:34-103 | terminates; the items are the result of valid rounds of renaming, after which every pushed tag of a block names the first of all blocks that are equal to it; nothing happens if the virtual tag occurs |
| Deduplication.StepSimulates | libevmasm/BlockDeduplicator.cpp:34-103 | the bisimulation: at positions that behave alike, both programs make the same step, up to the names of tags, exactly if no PC is executed at two places |
| Deduplication.RunSimulates | libevmasm/BlockDeduplicator.cpp:92-98 | for one round and any number of steps: what can be seen of both programs is the same all the time exactly if no step executes PC at two places |
| Deduplication.NoPcToMerge | libevmasm/BlockDeduplicator.cpp:92-98 | if the code runs into PC from no tag on, no round merges a block that contains PC |
| Deduplication.DeduplicationPreserves | libevmasm/BlockDeduplicator.cpp:34-103 | if no round merges a block that contains PC: for any number of steps, the rewritten program has made the same run, with stacks equal up to merged tags |
| Deduplication.PointsEarlier | libevmasm/BlockDeduplicator.cpp:92-101 | a replaced reference points to a strictly earlier block |
| Deduplication.ReachFalls | libevmasm/BlockDeduplicator.cpp:75-101 | so the outer loop terminates |
| ConstantReplacement.RunMoves | libevmasm/ConstantOptimiser.cpp:102-116 | if each step of a program is one or more steps of the moved one, so is each run, jumps included |
| ConstantReplacement.ExecuteMoves | libevmasm/ConstantOptimiser.cpp:102-116 | an item does at its new position what it did exactly if it is not PC, or both positions have one address |
| ConstantReplacement.ReplacementPreserves | libevmasm/ConstantOptimiser.cpp:102-116 | for a program without PC, the same from the start, as a simulation that composes |
| ConstantReplacement.PcIsMoved | libevmasm/ConstantOptimiser.cpp:102-116 | PC behind a constant that is replaced by a longer routine: the results are the same exactly if both positions have one address |
| LabelMachine.AddressesUnseen | libevmasm/ConstantOptimiser.cpp:102-116 | a program without PC makes the same run wherever its items are assembled to, so the result does not depend on the sizes of items and tags |
| ConstantReplacement.PositionMoved | libevmasm/ConstantOptimiser.cpp:102-116 | tags end up where the items before them take them |
| Decomposition.FindRepresentation | libevmasm/ConstantOptimiser.cpp:165-213 | terminates for every value, and finds the routine that the recursive definition of the search gives |
| Decomposition.Decompose | libevmasm/ConstantOptimiser.cpp:180-203 | considers exactly the numbers of bits at which the value splits with a small remainder |
| Decomposition.SplitCases | libevmasm/ConstantOptimiser.cpp:182-192 | a negative remainder means that the upper part is even and one too small |
| Decomposition.Smaller | libevmasm/ConstantOptimiser.cpp:195-199 | both parts of a split are strictly smaller than the value |
| Decomposition.ExactUnlessCarryLost | libevmasm/ConstantOptimiser.cpp:165-213 | the number computed is the value exactly if no split that is chosen has a negative remainder and a non-zero upper part |
| Decomposition.CarryIsLost | libevmasm/ConstantOptimiser.cpp:188-199 | if shorter routines are cheaper, as they are for code that is never run, the routine for 3 * 2**240 - 1 computes 2 * 2**240 - 1 |
| ConstantRoutines.RoutineComputes | libevmasm/ConstantOptimiser.cpp:193-203 | the routine pushes the number computed, on any stack, and does nothing else |
| ConstantRoutines.ComputedRoutineActsAt | libevmasm/ConstantOptimiser.cpp:165-213 | the computed routine does what pushing the constant does exactly if no carry is lost |
| ConstantRoutines.CopyRoutineActs | libevmasm/ConstantOptimiser.cpp:128-163 | the copying routine pushes the 32 bytes of data as one word and leaves memory as it was |
| ConstantOptimiser.HalfStep | libevmasm/ConstantOptimiser.cpp:108-115 | one turn of the insertion loop expands one more item |
| ConstantOptimiser.Assembly.ReplaceConstants | libevmasm/ConstantOptimiser.cpp:102-116 | the insertion loop is a flat map over the items; an error on an empty program |
| ConstantOptimiser.Assembly.CountPushes | libevmasm/ConstantOptimiser.cpp:34-37 | how often each constant is pushed |
| ConstantOptimiser.Assembly.OptimiseConstant | libevmasm/ConstantOptimiser.cpp:41-62 | chooses a method that is strictly cheaper than both others, and adds data only for copying |
| ConstantOptimiser.Assembly.OptimiseConstants | libevmasm/ConstantOptimiser.cpp:27-65 | exactly the constants from 0x100 on for which another method is cheaper are replaced, once each |
| ConstantOptimiser.OptimisedSimulates | libevmasm/ConstantOptimiser.cpp:27-65 | every run of a program without PC is one of the optimised program, unless a constant is computed and loses a carry |
| Linearization.AppearsOnlyAtHead | libsolidity/analysis/NameAndTypeResolver.cpp:327-337 | whether the candidate is behind the head of no list |
| Linearization.NextCandidate | libsolidity/analysis/NameAndTypeResolver.cpp:339-348 | a head that is behind no other head, or none if there is no such head |
| Linearization.RemoveCandidate | libsolidity/analysis/NameAndTypeResolver.cpp:350-361 | removes the candidate from all lists and drops the empty ones |
| Linearization.StuckMeansImpossible | libsolidity/analysis/NameAndTypeResolver.cpp:368-370 | if no head qualifies, no order respects all lists |
| Linearization.Merge | libsolidity/analysis/NameAndTypeResolver.cpp:322-375 | a result has every element once, respects the order of every list and invents nothing; there is none only if no order does, or nothing to merge |
| Linearization.ContractFirst | libsolidity/analysis/NameAndTypeResolver.cpp:295-320 | the linearisation starts with the contract itself |
| Linearization.MonotonicStill | libsolidity/analysis/NameAndTypeResolver.cpp:313-319 | a linearisation that extends those of the bases extends those of all ancestors |
| Linearization.NameAndTypeResolver.CollectLists | libsolidity/analysis/NameAndTypeResolver.cpp:297-313 | the lists to merge, or an error for a base that is no contract or not yet linearised |
| Linearization.NameAndTypeResolver.LinearizeBaseContracts | libsolidity/analysis/NameAndTypeResolver.cpp:295-320 | the linearisation starts with the contract, extends that of each base and of each ancestor, and puts later bases first; it fails only if no order respects the lists |
| StorageOffsets.Tight | libsolidity/ast/Types.cpp:42-65 | an item starts where the one before it ends or, only if it does not fit there, with the next slot |
| StorageOffsets.OneBehindTheOther | libsolidity/ast/Types.cpp:42-65 | items lie one behind the other without overlap |
| StorageOffsets.WithinSize | libsolidity/ast/Types.cpp:66-70 | all items lie in the slots counted, and fewer would not do |
| StorageOffsets.StorageOffsets.ComputeOffsets | libsolidity/ast/Types.cpp:37-72 | lays out exactly the items that can be stored, disjoint, in their order, none reaching over the end of a slot; fails exactly if they need 2**256 slots |
| StorageOffsets.PartWithin | libsolidity/ast/Types.cpp:1123-1142 | each member or element lies within its struct or array |
| StorageOffsets.PartsApart | libsolidity/codegen/ArrayUtils.cpp:900-924 | elements of an array, at the positions that the access code computes, do not overlap |
| StorageOffsets.Contained | libsolidity/ast/Types.cpp:1405-1408 | whatever is nested inside a type lies within its bytes, and no value reaches over the end of a slot |
| StorageOffsets.Disjoint | libsolidity/ast/Types.cpp:1405-1408 | two values nested in a type share no byte unless one is inside the other |

## Left out

- Gas, the limit of 1024 stack elements, and the size of memory that has been touched: two programs count as equal if they differ in these.
- forceEqual adds trusted knowledge from outside, and is not modelled.
- The second rule for MULMOD (libevmasm/ExpressionClasses.cpp:237) is shadowed by the identical pattern before it, and left out of the table.
- Unknown stack elements carry their height as an integer instead of a 256-bit word.
- Source locations, jump types, and the sharing of items between copies.
- reduceToCommonKnowledge, tag unions and relativeStackElement belong to the control flow graph, which is not part of this model.
- BlockOptimiser.OptimiseBlock: nothing is claimed about a block that asks for something from before a call once more, as the answer may still be the same; whether that happens is told by its second result. The control flow graph that supplies the knowledge at the beginning of a block is not part of this model.
- BlockOptimiser.OptimiseChunk: leaves out operations that are a PUSH without its word; a word to be pushed is an item of its own.
- KnownState.KnownState.FeedItem: SHA3 is not fed, as applySha3 with its cache of known hashes is not modelled.
- CommonSubexpressionEliminator.CommonSubexpressionEliminator.FeedItems: chunks with SHA3 are excluded for the same reason.
- CSECodeGenerator.CSECodeGenerator.AddDependencies: the dependencies of SHA3 on writes to memory are left out.
- CSECodeGenerator.CSECodeGenerator.AddStores: covers SLOAD and MLOAD, not the part for SHA3.
- CSECodeGenerator.CSECodeGenerator.RemovableIsAbove: does not state that a class still to be computed can do without the element; where it cannot, generation ends with an error, not with wrong code.
- KnownState.KnownState.MemoryKept: the entries kept are bounded from above only; which addresses can be told to be 32 apart depends on the classes.
- KnownState.KnownState.StoreInMemory: which of the entries that survive are kept depends on what the classes can tell apart, and is only bounded from above (in storage also from below).
- BlockDeduplicator.BlockDeduplicator.Deduplicate: requires that no tag is defined twice, without which it may not end.
- Whether generateCode succeeds: an exception is an error result, and the caller keeps the original code.
- The order in which maps and sets are iterated: where it could matter, the model takes any order.
- The costs of the constant optimiser are arbitrary functions.
- Deduplication.DeduplicationPreserves: instructions that read the code of the program, such as CODECOPY, have the same effect in both programs, though the bytes of their tags differ; the same goes for CODESIZE and ConstantOptimiser.
- Constants are compared with the sizes of code and of the program as the environment pushes them, in both programs alike.
- The layout of assembled bytes, the linker, the control flow graph and the LLL compiler.
- Types that cannot be stored occur in lists of members only, not inside other types, and value types of no bytes in lists only.
