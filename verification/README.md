# Verification of the Prefix interpreter

Prefix is an interpreter written in C. This project models its hardest self-contained parts in Dafny
and proves what they promise, over every input, every run or every interleaving. `dafny verify
dfyconfig.toml` checks all of it.

- **Namespace write buffer** (`src/ns_buffer.c`): `NsBuffer*.dfy`. Writers enqueue operations, one
  prepare thread dispatches, executes and completes them, readers wait for a symbol to drain. The
  buffer is a transition system with one program counter per thread over mutexes and condition
  variables (section 7.26 of ISO/IEC 9899:2018), spurious wakeups included; `next` is one link that
  two queues share. `NsBufferInvariant` states the invariant, `NsBufferPrepSteps` and
  `NsBufferClientSteps` prove that every step keeps it, `NsBufferTheorems` has linearizability and
  mutual exclusion, `NsBufferProgress` the ranking and freedom from deadlock, `NsBufferReads` which
  writes a read waits for, `NsBufferShutdown` what stopping the buffer does, `NsBufferFreed` when
  that leaves a pointer to freed memory, `NsBufferEnv` puts the real environments behind it.
- **Environments** (`src/env.c`): `EnvModel.dfy` specifies the direct operations, `EnvLaws.dfy`
  proves what they keep over all sequences, `EnvOps.dfy` is the code with its loops over parents
  and alias chains, `EnvIndex.dfy` the hash index with its probe loops, its rebuild in the middle of
  an insertion and its pointers into a block that realloc moves.
- **Deep equality and reachability** on heaps with cycles: `Heap.dfy`, `DeepEq.dfy`,
  `DeepEqImpl.dfy`, `ContainsThread.dfy`.
- **serialize and unserialize**: numerals (`Numerals.dfy`), UTF-8 (`Utf8.dfy`), JSON strings and
  text (`JsonString.dfy`, `JsonText.dfy`, `JsonRoundTrip.dfy`, `JsonOps.dfy`), values
  (`Serialize.dfy`, `SerializeRoundTrip.dfy`, `SerializeOps.dfy`), and the ids and references by
  which closures and environments share structure (`Closure*.dfy`; `ClosureData.dfy` puts the data
  back into them).
- **UTF-16** in both byte orders: `Utf16.dfy`.
- **Tensors** in row-major order: `Shapes.dfy`, `RowMajor.dfy`, flip, scatter, convolution and slice
  assignment (`Tensor*.dfy`).
- **The integer root**: `IntRoot.dfy`.
- **Control flow** of the evaluator: `ControlFlow.dfy` is the meaning of statements with the depth of
  loops as something lexical, `ControlFlowBreaks.dfy` says how far a break goes in any run and where
  it comes from, `ControlFlowImpl.dfy` is the evaluator with its counter.

Code that works step by step is modelled by methods with loops and by classes with fields, each
proved against a function; what the source promises is proved about the function.

Some promises hold only under a condition. For each the exact condition is proved:

- A read waits for dispatched writes only. `src/ns_buffer.h:108` says that it waits for all pending
  writes of the name. It sees an arrived write in every continuation if and only if, when the read
  begins, the write has been executed, or is in the queue of its symbol, or the prepare thread holds
  the lock of that symbol to put it there (`ReadSeesExactly`); any other it may overtake
  (`AReadOvertakesAWrite`).
- `src/ns_buffer.h:95` says that shutdown drains the remaining operations. The drain loop takes the
  head of the queue without resetting `queue_tail`, so an operation enqueued behind a tail that has
  been taken already is linked where nobody looks. An operation completes exactly if the tail it
  found was attached (`EnqueueOutcome`, `AnOperationIsLost`); while the main loop runs it always is.
- By then the writer that the detached tail belongs to may have freed its operation. The tail points
  at what a writer is about to free if and only if the drain loop has emptied the queue and nothing
  was enqueued since (`TailLeftBehind`); the next operation is then written into freed memory, which
  happens if and only if the tail it finds is detached and its writer has returned
  (`EnqueueWritesFreed`, `AFreedTailIsWritten`), and never before the drain loop begins
  (`NeverWildWhileRunning`).
- An alias to itself succeeds and makes a cycle; every other alias keeps the alias graph acyclic
  (`AliasAcyclicIff`, `SelfAliasSucceeds`).
- A successful assignment is read back exactly if the alias chain has at most one hop
  (`AssignThenGet`, `StaleBehindTwoHops`).
- Zero in base 58 is printed with a digit that base does not have, and -2^63 is printed but not read
  (`IntRoundTrip`).
- A string survives serialization exactly if it is valid UTF-8 below U+10000. The writer does not end
  on an encoded surrogate half (`StringRoundTrip`).
- A value survives exactly if it is `Portable` (`SerializeRoundTrip`); a tensor of maps is not
  (`TensorOfMapsIsLost`).
- The writer puts the values of an environment before its parent and the reader reads the parent
  first, so a reference may come before its definition and then makes an empty environment. An alias
  is read back without the environment that it leads to. A graph of closures survives if and only if
  nothing that is first met inside the values of an environment can be reached from its parent
  through what was not met before, unless it is as empty as a new environment, and every reachable
  alias leads where its target is found from the environment that holds the alias (`Survives`,
  `GraphRoundTrip`). An alias of a variable of the parent breaks the first half (`ParentIsLost`), a
  pointer parameter of the same name as the variable that it is bound to the second
  (`PointerParameterIsLost`). Its data comes back, too, if and only if all data in the environments
  that the writer meets can be written and parsed, also what is never read, and all that can be
  reached is portable (`DataRoundTrip`).
- A slice assignment writes exactly the selected cells if and only if no selector selects nothing;
  one that does writes the first position (`BoxIsSelection`, `OutOfRangeWritesTheFirst`). It writes
  out of its arrays if and only if there are more indices than dimensions or it is accepted by a
  tensor without elements (`AssignSlice`).
- A convolution of fit arguments stays within 64 bits if and only if every product and partial sum
  does (`Convolve`, `SmallElementsAreRoomy`).
- The products of the integer root stay within 64 bits exactly if some power of the top of the
  doubling search lands between x and the end of 64 bits and, unless the top is just above the root,
  so does the n-th power of some number a power of two below the top (`InRange`, `IntegerRoot`); for
  square roots, exactly below 2^62 (`SquareInRange`). Room for n doublings is enough but not needed
  (`RoomyIsInRange`, `HighRootInRange`).

Parameters of the model stand for what is outside: how values match a map schema, what strtod
finds, what expressions evaluate to.

## Model

| member | source | states |
|---|---|---|
| `NsBufferPrepSteps.PrepKeeps` | src/ns_buffer.c:145-243 | every step of the prepare thread, in the main loop and in the drain loop, keeps the whole invariant: mutex ownership, both queues, completion flags, effects, history |
| `NsBufferPrepSteps.KeepsDequeue` | src/ns_buffer.c:161-167 | taking the oldest operation keeps the invariant although the same `next` link serves both queues |
| `NsBufferPrepSteps.KeepsLink` | src/ns_buffer.c:174-182 | linking it into the symbol queue keeps the invariant: it is in no other queue then |
| `NsBufferPrepSteps.KeepsExec` | src/ns_buffer.c:184-187 | executing it appends exactly one effect, with the reply of the direct operation on the environment as it then is |
| `NsBufferPrepSteps.KeepsUnlink` | src/ns_buffer.c:189-199 | removing it from the symbol queue and waking the readers keeps the invariant |
| `NsBufferPrepSteps.KeepsDone` | src/ns_buffer.c:201-205 | completing it keeps the invariant: a writer it wakes finds its own result |
| `NsBufferClientSteps.WriteBegins` | src/ns_buffer.c:351-360 | a writer that begins adds its request to the history and nothing else |
| `NsBufferClientSteps.EnqueueAttachedKeeps` | src/ns_buffer.c:362-373 | an operation put behind an attached tail arrives at the end of the FIFO order |
| `NsBufferClientSteps.EnqueueDetachedKeeps` | src/ns_buffer.c:362-373 | behind a detached tail it joins the lost ones; everything else is kept, and a write through a tail that was freed is recorded (`wild`) |
| `NsBufferClientSteps.CollectKeeps` | src/ns_buffer.c:375-398 | a completed writer returns the result of its own execution and frees the operation |
| `NsBufferClientSteps.ReadKeeps` | src/ns_buffer.c:316-345 | a read takes effect under the environment mutex and returns what the environment held then |
| `NsBufferClientSteps.StepKeeps` | src/ns_buffer.c:145-398 | every step of every thread, spurious wakeups included, keeps the invariant |
| `NsBufferTheorems.RunKeeps` | src/ns_buffer.c:145-398 | the invariant holds after every run of any number of writers, readers, the prepare thread and one shutdown |
| `NsBufferTheorems.Linearizable` | src/ns_buffer.c:145-398 | for every interleaving the effects are a legal sequential run of the environment that holds every returned operation with the value it returned, each begun operation at most once, in real-time order, the writes in FIFO order |
| `NsBufferTheorems.OneMutexOneThread` | src/ns_buffer.c:145-398 | no thread holds two of the buffer's mutexes, and no mutex is held by two threads |
| `NsBufferTheorems.ReadExcludesWrite` | src/ns_buffer.c:184-187 | while a reader holds the environment mutex nothing executes and nobody else reads |
| `NsBufferTheorems.SymbolQueueHoldsCurrent` | src/ns_buffer.c:174-199 | in every reachable state a symbol queue holds at most one operation, the current one, and its pending count is its length |
| `NsBufferTheorems.UnlinkRemovesExecuted` | src/ns_buffer.c:189-199 | the removal `st->head = op->next` empties the queue of exactly the operation just executed |
| `NsBufferTheorems.FreedIsUnreachable` | src/ns_buffer.c:375-398 | when a writer is about to free its operation the prepare thread is done with it, it is in neither queue and under no other thread's hands; a tail that belongs to the queue does not point at it (for a detached one see TailLeftBehind) |
| `NsBufferTheorems.DrainedMeansExecuted` | src/ns_buffer.c:322-334 | at the moment when a reader finds nothing pending for a symbol, every write to it that was taken off the central queue has been executed, but for one that is not linked yet, or never is because the drain loop has it (for the read as a whole see ReadSeesExactly) |
| `NsBufferTheorems.NoLostWakeup` | src/ns_buffer.c:149-153 | whoever sleeps on a condition has something left to wait for: no wakeup is lost |
| `NsBufferProgress.PrepDescends` | src/ns_buffer.c:145-243 | every step of the prepare thread lowers a rank on queue position and phase |
| `NsBufferProgress.OthersKeepRank` | src/ns_buffer.c:275-398 | no step of any other thread raises that rank |
| `NsBufferProgress.FinishedInTime` | src/ns_buffer.c:149-205 | in every continuation an arrived operation is finished once the prepare thread has taken a number of steps fixed in advance |
| `NsBufferProgress.FinishedGrows` | src/ns_buffer.c:145-243 | what is finished stays finished, in FIFO order, along every run |
| `NsBufferProgress.NeverStuck` | src/ns_buffer.c:145-243 | while an arrival is unfinished the prepare thread can step, or waits for one mutex whose owner's next step gives it up |
| `NsBufferProgress.FinishedWriterReturns` | src/ns_buffer.c:375-381 | a writer whose operation is finished is never blocked and moves to its return |
| `NsBufferProgress.ExitLeavesNothing` | src/ns_buffer.c:208-243 | when the prepare thread leaves its drain loop every arrived operation is finished |
| `NsBufferProgress.PrepStepsBounded` | src/ns_buffer.c:208-243 | after `running = 0` the prepare thread takes at most 20 steps for each arrival and 19 more: it terminates |
| `NsBufferProgress.ShutdownNeverStuck` | src/ns_buffer.c:275-287 | and before it has left it is never stuck |
| `NsBufferShutdown.EnqueueOutcome` | src/ns_buffer.c:208-243 | an operation enqueued at any time, also during shutdown, is completed in every continuation with enough steps if the tail it found was attached, and in none otherwise; a write into freed memory is recorded only behind a detached tail |
| `NsBufferShutdown.AttachedWhileRunning` | src/ns_buffer.c:161-167 | until the drain loop begins the tail is always attached, so every operation enqueued before that completes |
| `NsBufferShutdown.LostIsForgotten` | src/ns_buffer.c:212-217 | an operation behind a detached tail has no effect and its writer never returns |
| `NsBufferShutdown.ExitedForever` | src/ns_buffer.c:239-243 | after the prepare thread has left nothing is executed any more |
| `NsBufferShutdown.AnOperationIsLost` | src/ns_buffer.c:208-243 | a run in which the drain loop, which does not reset `queue_tail`, loses an operation begun while the buffer was running |
| `NsBufferShutdown.AReadOvertakesAWrite` | src/ns_buffer.c:316-338 | a run in which a read of a name returns before a write to it that was already in the central queue (when, in general, is ReadSeesExactly) |
| `NsBufferReads.ReadSeesExactly` | src/ns_buffer.c:316-338 | a read that begins sees an arrived write to its name in every continuation if and only if the write has been executed, or is in its symbol's queue, or the prepare thread holds the lock of that symbol to link it |
| `NsBufferReads.RunKeepsAhead` | src/ns_buffer.c:316-338 | a write that is waited for stays ahead of the read along every run |
| `NsBufferReads.Overtakes` | src/ns_buffer.c:322-338 | for every other arrived write, a run from the beginning of the read in which the read takes effect first |
| `NsBufferReads.Settle` | src/ns_buffer.c:174-205 | the prepare thread can get out of a reader's way without executing what it has not linked |
| `NsBufferReads.LetRead` | src/ns_buffer.c:316-345 | and then the reader can go all the way while it rests |
| `NsBufferFreed.RunFrees` | src/ns_buffer.c:351-398 | in every run operations exist exactly until they return, and the tail is the newest operation if there is one |
| `NsBufferFreed.TailLeftBehind` | src/ns_buffer.c:212-217 | when a writer is about to free its operation the tail points at it if and only if the drain loop has emptied the queue, the operation was the last to arrive, and nothing was enqueued since |
| `NsBufferFreed.EnqueueWritesFreed` | src/ns_buffer.c:362-369 | an enqueue writes into freed memory if and only if the tail it finds is detached and the writer of that operation has returned; at most the first one behind a detached tail can |
| `NsBufferFreed.NeverWildWhileRunning` | src/ns_buffer.c:149-205 | before the drain loop begins it never happens |
| `NsBufferFreed.AFreedTailIsWritten` | src/ns_buffer.c:208-217 | a run in which it happens |
| `NsBufferEnv.EnvIsExecuteAll` | src/ns_buffer.c:94-133 | the environment the buffer arrives at is what the direct operations, one after the other, arrive at |
| `NsBufferEnv.BufferedRunsKeep` | src/ns_buffer.c:94-133 | over every interleaving the buffered environment is well formed, keeps its declared types, and never changes a permafrozen entry |
| `EnvIndex.PathReaches` | src/env.c:71-77 | the probe path visits every slot of a table whose size is a power of two |
| `EnvIndex.GapOnPath` | src/env.c:80-93 | a table that is not full has a gap on every path, so every probe loop ends |
| `EnvIndex.Env.Place` | src/env.c:71-77 | the probe for a free slot ends, fills one gap and indexes the entry |
| `EnvIndex.Env.Rebuild` | src/env.c:39-60 | after a rebuild every entry is indexed exactly once, in a doubled table |
| `EnvIndex.Env.Insert` | src/env.c:62-78 | an insertion that triggers the rebuild places the new entry twice; either way all entries are indexed |
| `EnvIndex.Env.Find` | src/env.c:80-93 | the index finds exactly what a linear scan of the entries finds |
| `EnvIndex.Env.FindEntry` | src/env.c:239-250 | so does the lookup with its fallback loop, which never finds anything the index missed |
| `EnvIndex.Env.Define` | src/env.c:328-355 | defines exactly when the name is new, keeps the index valid, and appends just this entry; the block moves exactly if it was full |
| `EnvIndex.Env.DefineHolding` | src/env.c:522-551 | when set_alias ends in the environment itself, its pointer to the end of the chain is stale after the definition exactly if the name is new, may be declared, and the block is full |
| `EnvIndex.Env.Append` | src/env.c:342-354 | the entry is counted before it is indexed and still ends up on its probe path |
| `EnvIndex.Env.Grow` | src/env.c:332-341 | a new block of entries leaves no slot pointing into the old one |
| `EnvIndex.Env.Update` | src/env.c:408-419 | writing the fields of an entry in place keeps the index |
| `EnvIndex.FillKeepsPath` | src/env.c:71-77 | filling a gap disturbs no other entry's path |
| `EnvIndex.NotOnPath` | src/env.c:80-93 | a probe that ends at a gap proves that no entry has the name |
| `EnvOps.Namespace.FindWithEnv` | src/env.c:168-180 | the loop over the parents finds the nearest environment that has the name |
| `EnvOps.Namespace.GetRaw` | src/env.c:254-289 | the loop over the alias chain answers as the chain of at most 257 hops does |
| `EnvOps.Namespace.DefineDirect` | src/env.c:328-355 | the new store is that of the specification, and the result |
| `EnvOps.Namespace.AssignDirect` | src/env.c:357-442 | likewise for assignment, with the alias followed once, the schema, type and freeze checks, and declaration |
| `EnvOps.Namespace.DeleteDirect` | src/env.c:444-466 | likewise for deletion, which keeps the entry |
| `EnvOps.Namespace.ResolveAvoiding` | src/env.c:486-521 | the loop that resolves an alias chain and refuses one that meets the name |
| `EnvOps.Namespace.SetAliasCross` | src/env.c:558-644 | likewise for setting an alias, within one environment or across two |
| `EnvOps.Namespace.LinkTo` | src/env.c:522-556 | likewise for the end of it: type check, freeze check and the link |
| `EnvOps.Namespace.RestoreLocalDirect` | src/env.c:646-698 | likewise for restore |
| `EnvOps.Namespace.FreezeDirect` | src/env.c:707-714 | likewise for freeze and its three results |
| `EnvOps.Namespace.ThawDirect` | src/env.c:716-726 | likewise for thaw, refused for a permafrozen entry |
| `EnvOps.Namespace.PermafreezeDirect` | src/env.c:728-736 | likewise for permafreeze |
| `EnvOps.Namespace.Create` | src/env.c:199-204 | a new environment below an existing one, younger than all others |
| `EnvLaws.ExecuteMakes` | src/env.c:328-736 | each operation changes at most one entry or adds one, and says which |
| `EnvLaws.ExecuteRespects` | src/env.c:328-736 | no operation touches a permafrozen entry, thaws one, or leaves a value its declared type does not accept |
| `EnvLaws.RunsKeep` | src/env.c:328-736 | over every sequence of operations and creations of environments: permafrozen implies frozen, permafrozen entries stay exactly what they were, entries keep places and names, initialised values keep to the declared types |
| `EnvLaws.DeedMakes` | src/env.c:199-204 | the creation of an environment changes no entry |
| `EnvLaws.LinkIsStable` | src/env.c:254-289 | an alias link leads to the same entry in every later store |
| `EnvLaws.AliasAcyclicIff` | src/env.c:468-556 | setting an alias keeps the alias graph free of cycles if and only if the target name does not lead straight back to the entry being set |
| `EnvLaws.OthersKeepAcyclic` | src/env.c:328-736 | all other operations only remove links |
| `EnvLaws.RunsKeepAcyclic` | src/env.c:328-736 | so over every sequence of operations and creations without such a call every alias chain ends |
| `EnvLaws.SelfAliasSucceeds` | src/env.c:468-556 | `x` set to an alias of `x` succeeds and leaves a name that cannot be read |
| `EnvLaws.AssignThenGet` | src/env.c:357-442 | after a successful assignment the written entry holds the value, no other entry changed, and a lookup gives the value exactly when the chain has at most one hop |
| `EnvLaws.DeclareThenGet` | src/env.c:357-442 | a declaring assignment to a new name is read back |
| `EnvLaws.StaleBehindTwoHops` | src/env.c:357-442 | a store in which a successful assignment is not what the next lookup returns |
| `EnvLaws.LookupStable` | src/env.c:168-180 | changing an entry's fields leaves every lookup where it was |
| `DeepEq.BisimilarSymmetric` | src/builtins.c:5976-6066 | bisimilarity of values on a heap with cycles is symmetric |
| `DeepEq.BisimilarTransitive` | src/builtins.c:5976-6066 | and transitive, which the algorithm never computes |
| `DeepEq.ComposeBisimulation` | src/builtins.c:5976-6066 | bisimulations compose, up to identity on either side |
| `DeepEq.MatchMono` | src/builtins.c:5976-6066 | containers that agree under some assumptions agree under more |
| `DeepEqImpl.EqSeenSet.Contains` | src/builtins.c:5940-5954 | the scan of the assumed pairs finds a pair either way round |
| `DeepEqImpl.OneSideIsEnough` | src/builtins.c:6041-6056 | with as many entries and distinct keys, a partner for each key on one side gives one for each on the other |
| `DeepEqImpl.SupportedIsBisimulation` | src/builtins.c:5976-6066 | pairs that all agree assuming each other are a bisimulation |
| `DeepEqImpl.Compare` | src/builtins.c:5976-6066 | terminates on every finite heap; a true result supports every pair it added, a false result means not bisimilar whatever was assumed |
| `DeepEqImpl.CompareTensors` | src/builtins.c:5992-6027 | the tensor case: element type, shape and elements |
| `DeepEqImpl.CompareMaps` | src/builtins.c:6028-6058 | the map case: same number of entries, each key with a partner |
| `DeepEqImpl.FindPartner` | src/builtins.c:6043-6052 | the inner loop finds the one entry with an equal key and compares its value |
| `DeepEqImpl.ValueDeepEq` | src/builtins.c:6069-6074 | the result is true if and only if the values are bisimilar, and then the seen pairs are a bisimulation that relates them |
| `ContainsThread.ThreadContainCtx.Seen` | src/builtins.c:1811-1847 | marks a container visited unless it was |
| `ContainsThread.NoPathOut` | src/builtins.c:1849-1888 | no path leaves a set of containers whose contents are all visited and none of them the thread |
| `ContainsThread.Search` | src/builtins.c:1849-1888 | the depth-first search terminates on cyclic heaps; found means a path exists, not found leaves such a set |
| `ContainsThread.SearchMap` | src/builtins.c:1856-1871 | the loop over keys and values |
| `ContainsThread.SearchTensor` | src/builtins.c:1872-1884 | the loop over elements |
| `ContainsThread.ValueContainsThread` | src/builtins.c:1890-1897 | true if and only if some path of containers leads to the thread |
| `Numerals.DigitsInverse` | src/parser.c:403-543 | the digit tables that are read and the alphabets that are printed are inverse to each other, for both alphabets |
| `Numerals.DigitsDenote` | src/builtins.c:734-741 | the digits that are printed denote the number |
| `Numerals.DigitCount` | src/builtins.c:731-741 | a 64-bit number has at most 64 digits in any base, so the buffer of 160 bytes never runs out |
| `Numerals.SplitIsPrefix` | src/builtins.c:839-887 | what is taken for a prefix names its base, and the rest is what follows it |
| `Numerals.PrefixSplits` | src/builtins.c:839-887 | every prefix that is printed, and the long form of any base, is read back |
| `Numerals.AcceptsExactly` | src/builtins.c:889-922 | a text is accepted if and only if it is a well-formed numeral of magnitude at most 2^63 - 1, with that value and base |
| `Numerals.IntRoundTrip` | src/builtins.c:724-766 | for every 64-bit integer and base 2 to 64, parsing the printed text gives (value, base) if and only if it is not 0 in base 58 and not -2^63 |
| `Numerals.IntToBasePrefixedStr` | src/builtins.c:724-766 | the printer as it runs gives that text |
| `Numerals.WriteDigits` | src/builtins.c:730-741 | its loop from the right end of the buffer |
| `Numerals.ParsePrefixedIntString` | src/builtins.c:889-922 | the parser as it runs; the accumulator never leaves 64 bits |
| `Numerals.OverflowCheck` | src/builtins.c:912-914 | its check is exact: it refuses just what would overflow |
| `Utf8.DecodeEncode` | src/builtins.c:1139-1170 | decoding finds the code point that was encoded, whatever follows |
| `Utf8.EncodeDecode` | src/builtins.c:1139-1170 | and what decodes is the one encoding of what was found: overlong forms are refused |
| `JsonString.StepIsUnit` | src/builtins.c:1095-1196 | every escape the writer emits, except \U, is read as one unit with the bytes it stands for |
| `JsonString.WriteThenRead` | src/builtins.c:1370-1451 | reading a written string gives it with bad bytes replaced by U+FFFD, or an error if it has a code point above U+FFFF |
| `JsonString.ReceivedLength` | src/builtins.c:1176-1180 | a replacement makes the string longer, so it is never the same string |
| `JsonString.StringRoundTrip` | src/builtins.c:1089-1199 | for every string: the writer ends and the reader gives the string back if and only if it is valid UTF-8 below U+10000 |
| `JsonOps.JsonBuf.AppendJsonString` | src/builtins.c:1089-1199 | the writer's loop appends that text, where it ends |
| `JsonOps.JsonParser.SkipSpace` | src/builtins.c:1304-1313 | skips exactly the white space |
| `JsonOps.JsonParser.HexCode` | src/builtins.c:1405-1424 | the loop over four hexadecimal digits |
| `JsonOps.JsonParser.ReadOne` | src/builtins.c:1380-1445 | one turn of the string reader: a byte or an escape |
| `JsonOps.JsonParser.ParseStringRaw` | src/builtins.c:1370-1451 | the string reader as it runs, which also ends where the text does |
| `JsonOps.JsonParser.ParseOne` | src/builtins.c:1554-1587 | the reader of a value as it runs is the grammar as a function, and moves on |
| `JsonOps.JsonParser.Items` | src/builtins.c:1477-1505 | the loop over array elements, trailing comma at the end of the text included |
| `JsonOps.JsonParser.Pairs` | src/builtins.c:1507-1552 | the loop over the pairs of an object |
| `JsonOps.ParseText` | src/builtins.c:1589-1607 | one value and nothing behind it |
| `JsonText.DigitsAreRead` | src/builtins.c:1458-1475 | a reader of digits is a strtod of the kind that is assumed |
| `JsonRoundTrip.Printed` | src/builtins.c:1554-1587 | reading the text of any JSON value gives the value, its strings as received, and leaves the rest of the text |
| `JsonRoundTrip.ItemsPrinted` | src/builtins.c:1477-1505 | the same for the elements of an array |
| `JsonRoundTrip.PairsPrinted` | src/builtins.c:1507-1552 | and for the pairs of an object |
| `JsonRoundTrip.ParsePrinted` | src/builtins.c:1589-1607 | and for the whole text |
| `SerializeRoundTrip.SerializeRoundTrip` | src/builtins.c:2679-2775 | through the actual text: serializing ends and unserializing gives back the very value if and only if the value is portable |
| `SerializeRoundTrip.BackExactly` | src/builtins.c:3594-3777 | what the reader builds from the written form equals the value exactly for portable values, by structure |
| `SerializeRoundTrip.IntBack` | src/builtins.c:3606-3616 | the integer case: value and base |
| `SerializeRoundTrip.StrBack` | src/builtins.c:3657-3661 | the string case |
| `SerializeRoundTrip.TensorBackIs` | src/builtins.c:3662-3742 | the tensor case: shape and elements come back, the element type is found anew, a shape without dimensions or with a zero is an error |
| `SerializeRoundTrip.TensorOfMapsIsLost` | src/builtins.c:3716-3738 | a tensor whose element type is map never comes back, because the reader knows no such type |
| `SerializeRoundTrip.DimsBack` | src/builtins.c:3672-3692 | the overflow check on the product never refuses a shape that fits, and a zero is always refused |
| `SerializeRoundTrip.MapBackIs` | src/builtins.c:3743-3777 | the map case |
| `SerializeRoundTrip.EntriesReturn` | src/builtins.c:3743-3777 | portable entries with distinct keys come back in their order |
| `SerializeRoundTrip.ReturnedArePortable` | src/builtins.c:3743-3777 | and only they do: keys that collide after replacement lose an entry |
| `SerializeOps.SerValue` | src/builtins.c:2679-2775 | the writer as it runs appends the text of the value |
| `SerializeOps.SerItems` | src/builtins.c:2739-2746 | the loop over the elements |
| `SerializeOps.SerEntries` | src/builtins.c:2759-2769 | the loop over the entries |
| `SerializeOps.ObjGet` | src/builtins.c:1637-1647 | the first pair with the key |
| `SerializeOps.ReadDims` | src/builtins.c:3672-3692 | the loop over the shape, with its exact overflow check |
| `SerializeOps.DeserList` | src/builtins.c:3711-3740 | the loop over the elements, with the element type they have in common |
| `SerializeOps.CommonTypeIs` | src/builtins.c:3720-3740 | that type is t if and only if every element has it |
| `SerializeOps.DeserPairs` | src/builtins.c:3743-3777 | the loop over the pairs of a map |
| `SerializeOps.DeserVal` | src/builtins.c:3594-3777 | the reader of a value as it runs |
| `SerializeOps.BuiltinSer` | src/builtins.c:3930-3945 | serialize, where the writing of every string ends |
| `SerializeOps.BuiltinUnser` | src/builtins.c:3947-3970 | unserialize |
| `Utf16.Utf16RoundTrip` | src/builtins.c:279-473 | in both byte orders: encoding and decoding gives a C string back if and only if it is valid UTF-8 |
| `Utf16.TextReturns` | src/builtins.c:381-473 | every sequence of scalar values comes back, surrogate pairs included |
| `Utf16.TextUpToNul` | src/builtins.c:279-379 | whatever is decoded is valid UTF-8 up to its terminator |
| `Utf16.EncUtf8ToUtf16` | src/builtins.c:381-473 | the encoder as it runs; its buffer never has to grow |
| `Utf16.DecUtf16ToUtf8` | src/builtins.c:279-379 | the decoder as it runs; its buffer never has to grow |
| `RowMajor.OffsetInBounds` | src/value.c:208-215 | an index within the shape has an offset within the data, and division gives the index back |
| `RowMajor.UnravelInBox` | src/value.c:208-215 | every offset is the offset of the index that division gives |
| `RowMajor.ComputeStrides` | src/value.c:208-215 | each stride is the product of the later dimensions |
| `TensorFlip.FlipPlaceTwice` | src/builtins.c:5181-5194 | flipping places twice leads back: the places correspond one to one and every cell is written exactly once |
| `TensorFlip.FlippedAt` | src/builtins.c:5181-5194 | each element of the result is the one at the mirrored index |
| `TensorFlip.FlippedTwice` | src/builtins.c:5164-5196 | flipping the same dimension twice is the identity |
| `TensorFlip.MirroredPlace` | src/builtins.c:5183-5192 | the inner loop of divisions and products |
| `TensorFlip.FlipDim` | src/builtins.c:5164-5196 | the builtin as it runs, with its range check |
| `TensorScatter.ReadBack` | src/builtins.c:5385-5417 | reading the box of the result gives the source |
| `TensorScatter.OutsideUnchanged` | src/builtins.c:5385-5417 | outside the box the result is the destination |
| `TensorScatter.ReadSpans` | src/builtins.c:5344-5383 | the loop over the bounds accepts exactly good spans |
| `TensorScatter.SourcePlace` | src/builtins.c:5390-5409 | the inner loop: whether a place lies in the box, and where its element is |
| `TensorScatter.Scatter` | src/builtins.c:5309-5421 | the builtin as it runs: accepted exactly for fitting arguments, and then the destination with precisely the box replaced |
| `TensorConvolve.PlaceSumIsBoxSum` | src/builtins.c:5091-5120 | one sum over all places is the nested sum over all dimensions |
| `TensorConvolve.SourceOffset` | src/builtins.c:5099-5111 | each position is kept inside, so the offset is in bounds |
| `TensorConvolve.Accumulate` | src/builtins.c:5089-5120 | the loop over the kernel gives the sum at one output index, unless it meets an element that is no integer or a product or sum that leaves 64 bits |
| `TensorConvolve.Convolve` | src/builtins.c:5035-5143 | every output element is the N-dimensional sum of the kernel against the input with its border repeated; for fit arguments something leaves 64 bits if and only if some product or partial sum does; refused only for unfit ones |
| `TensorConvolve.SmallElementsAreRoomy` | src/builtins.c:5080-5114 | nothing leaves 64 bits if the largest product of elements, once for every kernel element, does not |
| `TensorConvolve.IdentityKernel` | src/builtins.c:5035-5143 | a kernel that is 1 at its centre and 0 elsewhere gives the input back |
| `TensorSlice.NormalIsSelection` | src/interpreter.c:2953-2985 | normalised ends enclose exactly the selected positions |
| `TensorSlice.BoxIsSelection` | src/interpreter.c:2953-2992 | the box that is written is the selection if and only if no selector selects nothing |
| `TensorSlice.OutOfRangeWritesTheFirst` | src/interpreter.c:2972-2992 | position 9 of a row of 3 selects nothing, and the first element is written |
| `TensorSlice.CellsAndPlaces` | src/interpreter.c:3113-3122 | distinct positions of the right-hand side hit distinct cells of the box, and every cell of it is hit |
| `TensorSlice.InsertDrop` | src/interpreter.c:3018-3032 | dropping the dimensions of width one keeps places |
| `TensorSlice.OffsetIsBoth` | src/interpreter.c:3099-3122 | an offset is the sum over the fixed dimensions and the sum over the kept ones |
| `TensorSlice.Normalise` | src/interpreter.c:2953-2985 | the loop that normalises and finds the kept dimensions |
| `TensorSlice.TargetOffset` | src/interpreter.c:3111-3122 | the inner loop over the kept dimensions; the offset is in bounds if the tensor has elements |
| `TensorSlice.FillBox` | src/interpreter.c:3109-3129 | the loop over the right-hand side: out of bounds exactly for a tensor without elements; a tensor assigned to itself keeps its elements, each freed right before it is read |
| `TensorSlice.AssignSlice` | src/interpreter.c:2868-3133 | the write leaves the arrays if and only if there are more indices than dimensions, or the assignment is accepted and some dimension is zero; else it is refused exactly for unfit right-hand sides and nothing changes, or precisely the cells of the box receive the elements, each at its index without the dimensions of width one |
| `IntRoot.IntegerRoot` | src/builtins.c:5662-5735 | for all integers: both searches end; some product leaves 64 bits if and only if the arguments are not in range; otherwise the result has the sign of x and magnitude r with r^n <= abs(x) < (r+1)^n; and the error cases |
| `IntRoot.RoomyIsInRange` | src/builtins.c:5682-5707 | room for n doublings of the magnitude is enough |
| `IntRoot.SquareInRange` | src/builtins.c:5682-5707 | for n = 2 exactly the magnitudes below 2^62 are in range |
| `IntRoot.LargeSquare` | src/builtins.c:5684-5694 | from 2^62 on the doubling search multiplies 2^32 with itself and overflows |
| `IntRoot.HighRootInRange` | src/builtins.c:5682-5707 | every n of 63 and more is in range below 2^62, although no room is left for n doublings |
| `IntRoot.RootUnique` | src/builtins.c:5682-5707 | there is only one such r |
| `IntRoot.UpperBound` | src/builtins.c:5684-5694 | the doubling search finds the least power of two whose n-th power exceeds x, and overflows if and only if none of its powers up to the n-th lands between x and the end of 64 bits |
| `IntRoot.PowerUpTo` | src/builtins.c:5686-5689 | the product that stops as soon as it exceeds x |
| `IntRoot.Search` | src/builtins.c:5682-5707 | both searches overflow if and only if x and n do not fit, and else find the root |
| `ControlFlow.Exec` | src/interpreter.c:3222-4401 | for every program and run: a break that comes out has a count from 1 to the depth, and continue only comes out where there is a loop |
| `ControlFlow.NothingEscapes` | src/interpreter.c:4406-4453 | no break or continue escapes the top level |
| `ControlFlow.CallsEndBreaks` | src/interpreter.c:2193-2283 | a function body that breaks or continues ends, and its caller goes on |
| `ControlFlowBreaks.InsideBreaks` | src/interpreter.c:3929-4163 | a statement in whose course one of its parts breaks, in any branch, turn, handler or position: a loop takes one off the count and is over at one, all others pass it on |
| `ControlFlowBreaks.BreakPasses` | src/interpreter.c:3718-3752 | wherever a run comes to a break, all statements around it are left and every loop takes one off its count |
| `ControlFlowBreaks.BreakLeavesLoops` | src/interpreter.c:3718-3752 | break n leaves exactly the n loops around it: the n-th is over and the run goes on behind it |
| `ControlFlowBreaks.BreakFrom` | src/interpreter.c:3929-4163 | a statement other than break only breaks because one of its parts does |
| `ControlFlowBreaks.BreakComesFrom` | src/interpreter.c:3718-3752 | every break that comes out comes from a break statement that the run came to, whose count is that of the loops in between and what is left |
| `ControlFlowBreaks.WorkersBreak` | src/interpreter.c:4346-4396 | the first iteration of a parfor that breaks, with none failing, decides how it ends |
| `ControlFlowBreaks.WorkersFail` | src/interpreter.c:4330-4379 | a parfor whose run is not cut short fails if and only if one of its iterations does, whatever breaks came before or after it |
| `ControlFlowImpl.Interpreter.ExecStmt` | src/interpreter.c:3222-4401 | on every way out `loop_depth` and `in_try_block` are what they were, and the result is that of the lexical semantics |
| `ControlFlowImpl.Interpreter.ExecStmtList` | src/interpreter.c:4406-4453 | the list: labels first, then the statements with goto |
| `ControlFlowImpl.Interpreter.ExecWhileStmt` | src/interpreter.c:3929-3979 | while, with all its ways out |
| `ControlFlowImpl.Interpreter.ForTurns` | src/interpreter.c:4057-4163 | the turns of for, with all their ways out |
| `ControlFlowImpl.Interpreter.RunWorkers` | src/interpreter.c:4165-4396 | the workers of parfor, each in its own interpreter |
| `ControlFlowImpl.Interpreter.ExecTryStmt` | src/interpreter.c:3656-3716 | try and catch |
| `ControlFlowImpl.Interpreter.ExecBreak` | src/interpreter.c:3718-3752 | break and its checks against the counter |
| `ControlFlowImpl.RunProgram` | src/interpreter.c:4406-4453 | from the start of a program the counter is back at 0 at its end, and no break or continue comes out |
| `ClosureGraph.WriteEnv` | src/builtins.c:1692-1725 | ids keep their meaning, no environment and no function has two of them, and with an environment its parent is met |
| `ClosureGraph.ReadEnv` | src/builtins.c:3454-3592 | ids keep their cells, no two share one, and what was built before is untouched |
| `ClosureWriter.WrittenEnv` | src/builtins.c:1917-2049 | the text of an environment describes it, ids standing for the order of first meeting: entries and schemas, then parent, each environment defined once and referred to afterwards |
| `ClosureWriter.WrittenVal` | src/builtins.c:2776-2869 | so does the text of a function: a reference while it is being written, else its definition, repeated if it is met again |
| `ClosureOrder.EnvLearnsNew` | src/builtins.c:1924-1936 | an environment that is not like a new one is learned only where its definition was first written |
| `ClosureOrder.ApartIsOrdered` | src/builtins.c:1917-2049 | if nothing first met inside the values of an environment can be reached from its parent, no reference comes before its definition in the order of reading |
| `ClosureOrder.OwnerAhead` | src/builtins.c:1974-1981 | an alias whose target was not met has a waiting environment above it whose parent leads to the target |
| `ClosureOrder.OrderedIsApart` | src/builtins.c:3487-3592 | and conversely |
| `ClosureOrder.OrderedIffApart` | src/builtins.c:3454-3592 | so the order of reading is right if and only if the graph is apart, which speaks of the graph alone |
| `ClosureReader.EntriesAre` | src/builtins.c:3489-3590 | every entry that was written is there under its name with its value, type and flags, and nothing else is |
| `ClosureReader.EnvReadInOrder` | src/builtins.c:3454-3592 | reading the description of an environment in order builds its image: same names, values, types, flags and schemas, and the image of its parent; everything begun on the way is finished |
| `ClosureReader.ValReadInOrder` | src/builtins.c:3778-3839 | the same for functions, with their closures |
| `ClosureReader.ImageEnvInOrder` | src/builtins.c:3474-3484 | an image can only have been built by reading in order: a reference that comes too early makes an empty environment for good |
| `ClosureReader.ImageInOrder` | src/builtins.c:3778-3890 | the same for functions: one whose definition was not found only throws |
| `ClosureRoundTrip.FindsImage` | src/env.c:254-289 | looking a name up in the image of an environment finds the image of what is found among the entries that are written |
| `ClosureRoundTrip.AliasImageIffKept` | src/builtins.c:3516-3533 | an alias, which comes back without the environment it leads to, leads to the image of its target if and only if its target is found from its own environment |
| `ClosureRoundTrip.GraphRoundTrip` | src/builtins.c:1917-2049 | for every cyclic graph of environments and functions: what is read back is isomorphic, with the same sharing and aliases that lead to the same entries, if and only if nothing first met inside the values of an environment is reachable from its parent and every reachable alias leads where its target is found from its own environment |
| `ClosureRoundTrip.ShadowedAliasIsLost` | src/builtins.c:3516-3533 | an alias is lost if its own environment has an entry with the name of its target |
| `ClosureRoundTrip.PointerParameterIsLost` | src/interpreter.c:1995 | a pointer parameter x bound to the x of the caller: all else is read back, but it is then an alias of itself |
| `ClosureRoundTrip.FamilyWritten` | src/builtins.c:1962-1973 | an alias in a child of a variable of its parent puts the definition of the parent where it is never read |
| `ClosureRoundTrip.FamilyDoesNotSurvive` | src/builtins.c:1962-1973 | that graph is not apart |
| `ClosureRoundTrip.ParentIsLost` | src/builtins.c:3454-3592 | read back, its parent is empty |
| `ClosureRoundTrip.EmptyRootSurvives` | src/builtins.c:3474-3484 | a root without entries survives although the reference to it comes first |
| `ClosureMet.MetExactly` | src/builtins.c:1917-2049 | the writer meets exactly the environments that parents, closures and the owners of alias targets lead to |
| `ClosureMet.WritesExactly` | src/builtins.c:1917-2049 | the text holds exactly the data, tensors and maps of those environments |
| `ClosureData.EnvFailsExactly` | src/builtins.c:3454-3592 | reading an environment fails if and only if some item that is read on the way fails, and else finds what it finds without data |
| `ClosureData.ValFailsExactly` | src/builtins.c:3594-3839 | the same for a value |
| `ClosureData.SameIfPortable` | src/builtins.c:3651-3777 | an item comes back as it was if and only if it is portable: data, the shape and element type of a tensor, the keys of a map |
| `ClosureData.ReadIsReachable` | src/builtins.c:3454-3839 | only what can be reached through parents and closures is read |
| `ClosureData.ReachableComesBack` | src/builtins.c:3454-3839 | and all of it is in what comes back |
| `ClosureData.DataRoundTrip` | src/builtins.c:2679-2876 | a cyclic graph of environments and functions comes back isomorphic and with the very same data, tensors and maps if and only if it survives, all data that is written is legible, also where it is never read, and all that can be reached is portable |

## Left out

- NsBufferTheorems.Linearizable: `NS_OP_INDEX_ASSIGN`, which evaluates user expressions on the prepare thread, is not among the operations; execution of an operation is one atomic step under `env_mtx`.
- NsBufferTheorems.RunKeeps: threads that find the buffer inactive and call the direct operations themselves, and writers that start after shutdown, are not modelled; the code promises nothing about them. The freeing of the symbol registry after the join is not modelled either.
- NsBufferShutdown.EnqueueOutcome: what a write through a freed tail does is left open by C; the model records it (`wild`) and goes on as if nothing had been hit, so what happens to later operations in such a run is claimed only for that case.
- NsBufferClientSteps.EnqueueDetachedKeeps: the same write through a freed tail.
- NsBufferProgress.NeverStuck: fairness between readers and the prepare thread is not claimed; the mutexes promise none.
- EnvOps.Namespace.SetAliasCross: the C code holds a pointer into a block of entries across a call that may move the block; entries are addressed by position here, so what is read through the stale pointer is not modelled. When it is stale is (`EnvIndex.Env.DefineHolding`): the chain ends in the environment itself, the name is new there and may be declared, and the block is full. The concurrent model does not include this operation, because it bypasses the buffer.
- EnvOps.Namespace.LinkTo: the same stale pointer.
- EnvIndex.Env.Find: the snapshot ring of `src/env.c:109-164` that copies entries for readers is not modelled; a lookup returns the entry.
- EnvModel: whether a value matches a map schema is a parameter.
- DeepEqImpl.ValueDeepEq: locks on containers and other threads that change them meanwhile are not modelled.
- JsonText.Strtod: strtod is a parameter that is known to read decimal integers below 2^53 exactly; dimensions are the only numbers the serializer writes as JSON numbers.
- JsonOps.ParseText: the wording of error messages is not modelled, only that there is an error.
- SerializeOps.DeserVal: floats, functions and threads are not among these values; their tags are errors here.
- SerializeOps.SerValue: the same.
- ClosureRoundTrip.GraphRoundTrip: the text is a tree of definitions and references, not characters; the lists of an environment's definition (values, declared, frozen, permafrozen) are one list of entries, and the schemas of its entries, with their names, are one value behind them. What data does is not here but in `ClosureData.DataRoundTrip`. Name, parameters, return type and body of a function are opaque; number bases are not written at all, an unknown return type is read back as int, and an entry without value, type and flags is not written (`LeavesTrace`). The order of entries is not claimed. Closures over an environment whose parents form a cycle do not exist (`Closed`). These are functions on values, so update in place is not captured.
- ClosureData.DataRoundTrip: names, parameters and bodies are opaque there, too, and taken to be legible; entries of a map are not merged when their keys collide after reading, which needs a key that does not come back as it was.
- ClosureData.EnvFailsExactly: the C code reads on after some errors; the error stays, and nothing that was built is returned.
- Serialize.ToSize: the conversion of a number that does not fit into size_t is undefined in C and an error here.
- Numerals.IntToBasePrefixedStr: the negation of -2^63, undefined in C, is taken to wrap as machines do.
- TensorSlice.AssignSlice: a write out of the arrays is undefined in C and the outcome `OutOfBounds` here, and so is reading an element right after freeing it, which a tensor assigned to itself does and the flag `freed` records. The evaluation of index expressions and chains through maps are not modelled.
- TensorConvolve.Convolve: the float case and the three-argument form are not modelled; a product or sum that leaves 64 bits is undefined in C and the outcome `Overflow` here, which on unfit arguments may come before the refusal.
- IntRoot.IntegerRoot: a product that leaves 64 bits is undefined in C and the outcome `Overflow` here.
- ControlFlow.Exec: what expressions compute is drawn from a sequence of outcomes; the restoring of a shadowed `for` counter, the merging of environments after parfor, label tables across nested blocks, and the timing of pause and stop are not modelled.
- ControlFlowImpl.Interpreter.RunWorkers: the workers of a parfor, which are threads, run one after the other, each with an interpreter of its own.
- Memory allocation failure, reference counts and frees of values, floats with their rounding, files, console, modules, the REPL, extensions, the lexer, the parser's statements and tracebacks: not modelled.
- Arithmetic, comparison and type-test builtins: they would only add easy members.
