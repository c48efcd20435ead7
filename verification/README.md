# Verified model of the AVDECC controller core

This project models, in Dafny, the parts of the AVDECC (IEEE 1722.1 and Milan) controller stack whose
correctness is not visible from reading one function, and proves what they are relied upon for. `dafny verify
dfyconfig.toml` checks all of it.

| file | what it models |
|---|---|
| `Executor.dfy`, `ExecutorPaths.dfy` | the executor with a dispatch queue, as a state machine: the worker and any number of clients that push, flush and terminate take one step at a time, under two locks, a flag and one-shot promises |
| `Bits.dfy`, `Fips180.dfy`, `Fips180Constants.dfy`, `Sha256Serializer.dfy` | words as bit sequences, the block function of FIPS 180-4 and where its constants come from, and the streaming serializer in front of its in-place implementation |
| `EntityGraph.dfy`, `EntityVisits.dfy`, `EntityTree.dfy`, `ChecksumVisitor.dfy`, `ChecksumContent.dfy` | the model graph of an entity and its traversal, the cached tree that two visitors build and refresh, and the visitor that serializes the checksum in all of its versions |
| `Redundancy.dfy` | the association loop over redundant streams, under the strict 2018 rules of the default build, and its two caches |
| `AudioMappings.dfy`, `MappingRepair.dfy`, `OutputMappings.dfy`, `InvalidMappings.dfy` | the mapping lists of stream ports: checked adds, removal, deferred repair, output mappings as a finite map, and the mappings a new stream format makes invalid |
| `ExpectedQueries.dfy` | packed query keys and the tables of outstanding queries |
| `UnsolicitedTracking.dfy` | loss detection over the sequence IDs of unsolicited notifications |
| `StreamFormats.dfy` | the 64-bit stream formats of section 7.3.2 of IEEE Std 1722.1-2013: fields, builders, parser, adaptation and matching |
| `SharedLock.dfy`, `LockProgress.dfy` | the recursive lock shared by all entities and the guard that releases it, for one thread and for all threads interleaved |
| `ModelCache.dfy` | the cache of entity models with its replace-once rule |
| `Common.dfy` | options and 16-bit indexes |

Some of what one might expect is not true of the code. In these cases the code is modelled as it is, and the exact
condition is proved:

- A flush may return in time with accepted jobs not yet executed, although the comment in `src/executor.cpp:219` says
  that it waits until all jobs are processed (`Executor.FlushDrainsIffSettled`, with a run in
  `ExecutorPaths.FlushEscapes`).
- A field is written without a mask, so 61883-6 formats with more than 255 channels and AAF formats with more than 1023
  do not parse back, and a large number of samples per frame can change the channel count
  (`StreamFormats.BuildFormat61883_6`, `StreamFormats.BuildFormatAaf`).
- A stream claimed by two others ends up in two nodes (`Redundancy.PairsAreSoundIffUnambiguous`).
- Deferred repair differs from immediate repair without redundant streams when destinations repeat
  (`MappingRepair.DeferredRepairIsImmediate`), and a remove may not be deferred past a list that is not well-formed
  (`MappingRepair.RemovesDeferIff`, `MappingRepair.NextRemoveDefersIff`).
- The fix pass is not idempotent (`MappingRepair.FixIsIdempotentIff`).
- A further add can break a redundant pair (`AudioMappings.CheckedAddKeepsWellFormedIff`).
- A refreshed tree keeps nodes that have left the graph, and static models it was built with; nothing resets it
  (`EntityTree.RefreshedIffFresh`, `EntityTree.RefreshedIsStale`).
- Checksums of versions 1 and 2 depend on dynamic fields of AVB interfaces (`ChecksumVisitor.StreamIsStaticIff`), and
  the zero padding of the last block hides trailing zero bytes (`Blocks.TrailingZerosUnseen`).

## Model

| member | source | states |
|---|---|---|
| `Executor.StepKeepsInv` | src/executor.cpp:125-274 | Every step of the worker or of any client, in any interleaving, keeps the invariant over locks, batch, queue, termination, promises and running flushes. |
| `Executor.RunKeepsInv` | src/executor.cpp:102-274 | The invariant holds in every reachable state. |
| `Executor.Conservation` | src/executor.cpp:125-178 | The jobs accepted are, in this order, those executed, the rest of the worker's batch, the queue and what termination discarded; nothing is discarded before termination. |
| `Executor.ExecutedIsPrefix` | src/executor.cpp:125-274 | Between any two points of a run executed jobs stay a prefix of accepted ones, both only grow, and after termination nothing more is accepted. |
| `Executor.PromisesAreKeptOnce` | src/executor.cpp:167-176 | No promise of a flush round is fulfilled twice, so `set_value` never throws. |
| `Executor.FlushTakesTwoRounds` | src/executor.cpp:214-243 | A flush is in its first or its second round, never in a third. |
| `Executor.FlushGuarantee` | src/executor.cpp:214-243 | When a flush returns in time, every job accepted by then is executed or in the worker's current batch; after a second round all are executed. |
| `Executor.FlushMayEscape` | src/executor.cpp:142-175 | From every state in which the flag is raised while the worker has left jobs behind it, some interleaving lets the flush return in time with jobs not executed. |
| `ExecutorPaths.RaisesBehindWorker` | src/executor.cpp:125-230 | Such a state is reachable from the start: a job comes when the worker has just taken another, and a flush raises its flag before the worker is back. |
| `ExecutorPaths.FlushEscapes` | src/executor.cpp:142-243 | There is a whole run, from the start, in which a flush returns in time and an accepted job is not executed. |
| `ExecutorPaths.FlushIsAnswered` | src/executor.cpp:126-177 | From every reachable state in which a flush waits and termination is not requested, the worker alone can get to fulfil the promise, also when the queue is empty, and the wait then ends in time. |
| `ExecutorPaths.FlushCanReturn` | src/executor.cpp:214-243 | From every reachable state in which a flush has its lock and termination is not requested, the worker and the flush alone can get to its return in time, in one turn or two. |
| `Executor.FlushedTerminateKeepsJobs` | src/executor.cpp:245-274 | A terminate that was asked to flush, and whose flush did not time out, discards no job. |
| `ExecutorPaths.TerminateCanReturn` | src/executor.cpp:256-273 | From every reachable state in which terminate waits for the worker, the worker alone can get to its end, and terminate can then return. |
| `Executor.FlushDrainsIffSettled` | src/executor.cpp:128-176 | A flush is sure to have executed every accepted job on return if and only if, at the raise of its flag, the queue is empty or the worker has still to look at it before it next fulfils a promise. |
| `StreamFormats.ReplaceField` | src/streamFormatInfo.cpp:78-93 | A value that fits is read back from its field and every disjoint field reads as before; a value that does not fit spills, as in the code. |
| `StreamFormats.FieldIsShifted` | src/streamFormatInfo.cpp:65-76 | A field is what the shift and the mask of the code leave of the 64-bit word. |
| `StreamFormats.BuildFormat61883_6` | src/streamFormatInfo.cpp:578-643 | For all arguments: null for what the builder refuses, and otherwise parsing gives the arguments back if and only if there are at most 255 channels; the 64-bit word is then stated as a number. |
| `StreamFormats.BuildFormatAaf` | src/streamFormatInfo.cpp:645-728 | For all arguments: null for what the builder refuses, and otherwise parsing gives the arguments back if and only if there are at most 1023 channels and the samples per frame, which are not masked, set no bit of the channel field that is not set already; up to 1023 samples the 64-bit word is stated as a number. |
| `StreamFormats.SmallSamplesCovered` | src/streamFormatInfo.cpp:645-728 | Up to 1023 samples per frame never disturb the channel field. |
| `StreamFormats.SamplesSpill` | src/streamFormatInfo.cpp:78-93 | What a samples-per-frame value of any 16-bit size does to the channel field it may spill into. |
| `StreamFormats.GetAdaptedStreamFormat` | src/streamFormatInfo.cpp:294-311 | The adapted format is non-null exactly when the count is admitted; it parses as the original does, with that count, fixed. |
| `StreamFormats.NarrowAaf` | src/streamFormatInfo.cpp:399-415 | Fixing the channel count of an AAF format changes nothing else the format says. |
| `StreamFormats.GetAdaptedCompatibleFormats` | src/streamFormatInfo.cpp:754-795 | Sound and complete for all pairs of formats: non-null exactly when they carry the same stream and admit a common count; the count is the largest one, only the count changes, and the pair is compatible. |
| `Sha256Serializer.RotateIsRotr` | src/controller/entityModelChecksum.cpp:217-220 | A rotation written with `+` is ROTR of section 3.2 of FIPS 180-4 for every amount between 1 and 31. |
| `Sha256Serializer.SigmasAgree` | src/controller/entityModelChecksum.cpp:221-236 | The four helper functions are the four sigma functions of section 4.1.2 of FIPS 180-4. |
| `Sha256Serializer.RoundStep` | src/controller/entityModelChecksum.cpp:267-279 | One turn of the register-shift loop is one round of section 6.2.2 of FIPS 180-4. |
| `Fips180Constants.RoundConstants` | src/controller/entityModelChecksum.cpp:155-156 | The round constants are the first 32 bits of the fractional parts of the cube roots of the first 64 primes, as section 4.2.2 of FIPS 180-4 has it. |
| `Fips180Constants.InitialHashConstants` | src/controller/entityModelChecksum.cpp:288-288 | The initial hash value is made of those of the square roots of the first 8 primes, as section 5.3.3 of FIPS 180-4 has it. |
| `Fips180Constants.PrimesAreFirst` | src/controller/entityModelChecksum.cpp:155-156 | The table of primes that this rests on holds all primes up to 311, in order. |
| `Fips180.ChChooses` | src/controller/entityModelChecksum.cpp:237-240 | Each bit of the first helper comes from the second or the third word, as the first one chooses. |
| `Fips180.MajIsMajority` | src/controller/entityModelChecksum.cpp:241-244 | Each bit of the second helper is that of the majority of the three words. |
| `Fips180.RotrTurns` | src/controller/entityModelChecksum.cpp:217-220 | Where each bit of a rotation comes from. |
| `Fips180.AddWraps` | src/controller/entityModelChecksum.cpp:259-283 | Sums of words wrap at 2^32. |
| `Fips180.BigEndianValue` | src/controller/entityModelChecksum.cpp:250-255 | The value of a word read from four bytes, the first one the most significant. |
| `Sha256Serializer.Sha256Serializer.Schedule` | src/controller/entityModelChecksum.cpp:246-260 | The in-place schedule is the message schedule of section 6.2.2 of FIPS 180-4. |
| `Sha256Serializer.Sha256Serializer.Shuffle` | src/controller/entityModelChecksum.cpp:261-279 | The 64 turns over shifted registers are the 64 rounds. |
| `Sha256Serializer.Sha256Serializer.ProcessBlock` | src/controller/entityModelChecksum.cpp:210-285 | The hash becomes the block function of FIPS 180-4 of the old hash and the block. |
| `Sha256Serializer.Sha256Serializer.AppendBuffer` | src/controller/entityModelChecksum.cpp:160-191 | The state after a call is that of the whole stream so far with the bytes added, however it was cut into calls. |
| `Sha256Serializer.Sha256Serializer.ValidMeans` | src/controller/entityModelChecksum.cpp:160-208 | At every rest the hash is the fold over the full 64-byte blocks of all bytes and the block holds the tail. |
| `Sha256Serializer.Sha256Serializer.Finalize` | src/controller/entityModelChecksum.cpp:193-208 | The stream is filled with zeros up to a block and processed. |
| `Sha256Serializer.Sha256Serializer.GetHash` | src/controller/entityModelChecksum.cpp:53-78 | The text is the upper-case digest of the fold over the zero-padded stream. |
| `Blocks.ZeroPadIdempotent` | src/controller/entityModelChecksum.cpp:193-208 | Padding twice is padding once: a second digest is the first one. |
| `Blocks.TrailingZerosUnseen` | src/controller/entityModelChecksum.cpp:193-208 | Exactly which two streams the padding confuses: those that differ by zeros at the end and need the same number of blocks. |
| `Sha256Serializer.HexDigestInjective` | src/controller/entityModelChecksum.cpp:60-77 | Different hash values have different texts. |
| `Redundancy.RedundantStreams.CheckAssociation` | src/controller/avdeccControlledEntityImpl.cpp:3139-3214 | An association passes the checks exactly when it is mutual, with one other existing stream, over the AVB interfaces 0 and 1; the two are told apart by interface. |
| `Redundancy.RedundantStreams.FindNode` | src/controller/avdeccControlledEntityImpl.cpp:3216-3232 | Whether a stream is in a node already, and whether in two. |
| `Redundancy.RedundantStreams.Build` | src/controller/avdeccControlledEntityImpl.cpp:3137-3277 | For every set of streams the nodes are exactly the redundant pairs, each once, with virtual indexes 0 to n-1 and the stream on interface 0 as primary; flags and caches follow. |
| `Redundancy.RedundantStreams.GetRedundantStreamIndex` | src/controller/avdeccControlledEntityImpl.cpp:2827-2841 | The lookup gives the partner that the two caches hold. |
| `Redundancy.PairsAreSoundIffUnambiguous` | src/controller/avdeccControlledEntityImpl.cpp:3137-3277 | The nodes are disjoint, and the lookup is an involution without fixpoints, if and only if no stream is claimed by two others. |
| `Redundancy.CachesAreInverse` | src/controller/avdeccControlledEntityImpl.cpp:3268-3273 | Then primary and secondary caches hold exactly the pairs and are mutually inverse. |
| `Redundancy.SinglesAreUnambiguous` | src/controller/avdeccControlledEntityImpl.cpp:3149-3156 | Association sets of at most one element are never ambiguous. |
| `Redundancy.PartnerFinds` | src/controller/avdeccControlledEntityImpl.cpp:2827-2841 | A stream has a partner exactly when it is in a pair, and it is one it is paired with, even where claims collide. |
| `AudioMappings.BuiltCachesAreValid` | src/controller/avdeccControlledEntityImpl.cpp:3137-3277 | The caches left by the builder meet what the theorems on mappings assume, unless a stream is claimed twice. |
| `AudioMappings.StreamPortInput.AddOrFixMapping` | src/controller/avdeccControlledEntityImpl.cpp:1353-1384 | The checked add: new destination, completion of a redundant pair, or replacement of the first mapping to the destination. |
| `AudioMappings.StreamPortInput.Add` | src/controller/avdeccControlledEntityImpl.cpp:1386-1410 | Unchecked before the entity is advertised, checked one by one afterwards. |
| `AudioMappings.StreamPortInput.Fix` | src/controller/avdeccControlledEntityImpl.cpp:3055-3092 | The rebuild of the list when the entity has redundant streams. |
| `AudioMappings.CheckedAddAt` | src/controller/avdeccControlledEntityImpl.cpp:1353-1384 | A checked add changes what its own destination holds, in the three ways of the code, and no other destination. |
| `AudioMappings.CheckedAddKeepsPlaces` | src/controller/avdeccControlledEntityImpl.cpp:1353-1384 | Every other mapping keeps its place; the added one takes the first place of its destination, or the end. |
| `AudioMappings.CheckedAddKeepsDestinations` | src/controller/avdeccControlledEntityImpl.cpp:1353-1384 | The added mapping is in the list and no destination is lost. |
| `AudioMappings.CheckedAddKeepsWellFormedIff` | src/controller/avdeccControlledEntityImpl.cpp:1353-1384 | A checked add keeps a well-formed list well-formed if and only if its destination holds at most one mapping or the added one is the first there. |
| `MappingRepair.DeferredRepairIsImmediate` | src/controller/avdeccControlledEntityImpl.cpp:1328-1442 | For every run of adds and clears before advertising, and of removes that meet well-formed lists, repairing at the end equals checked adds all along, if and only if the primary cache is not empty or no destination occurs twice. |
| `MappingRepair.FixOfRawIsChecked` | src/controller/avdeccControlledEntityImpl.cpp:1328-1442 | For such runs the fix pass over the raw list gives the list of checked adds, whatever the caches. |
| `MappingRepair.RemovesDeferIff` | src/controller/avdeccControlledEntityImpl.cpp:1412-1442 | Every batch of removes has the same effect before the fix pass as after it if and only if the list is well-formed. |
| `MappingRepair.NextRemoveDefersIff` | src/controller/avdeccControlledEntityImpl.cpp:1412-1442 | Such a run can go on with any remove, repair still being deferred, if and only if the raw list is well-formed by then. |
| `MappingRepair.RemovesDoNotDefer` | src/controller/avdeccControlledEntityImpl.cpp:1412-1442 | The shortest failing run: two adds to one destination and the remove of the second. |
| `MappingRepair.FixIsIdempotentIff` | src/controller/avdeccControlledEntityImpl.cpp:3055-3079 | A second fix pass changes nothing if and only if, at every destination, each mapping that completed a pair when it came completes one with the mapping that is first there in the end. |
| `AudioMappings.FixIsIdentityIff` | src/controller/avdeccControlledEntityImpl.cpp:3055-3079 | The fix pass changes nothing if and only if every mapping is the first to its destination or completes a pair with the first. |
| `AudioMappings.FixKeepsWellFormed` | src/controller/avdeccControlledEntityImpl.cpp:3055-3079 | The fix pass is the identity on well-formed lists. |
| `AudioMappings.FixIsNotIdempotent` | src/controller/avdeccControlledEntityImpl.cpp:3055-3079 | A failing input: a further mapping to a destination with a full pair: the pass breaks the pair, and a second pass changes the list again. |
| `AudioMappings.GetNonRedundant` | src/controller/avdeccControlledEntityImpl.cpp:524-545 | The view is the mappings of the list at increasing positions, exactly those that are not of secondary streams, each as often as it was there. |
| `AudioMappings.ViewHasOneMapping` | src/controller/avdeccControlledEntityImpl.cpp:524-545 | In a well-formed list each cluster channel has at most one mapping in the view, exactly one unless it is unmapped or fed by a secondary stream alone, and of a redundant pair it is that of the primary stream. |
| `AudioMappings.EraseMapping` | src/controller/avdeccControlledEntityImpl.cpp:1425-1438 | Erases the first equal mapping. |
| `AudioMappings.RemoveAllTakesCommon` | src/controller/avdeccControlledEntityImpl.cpp:1412-1442 | As multisets, a batch of removes leaves the list without the batch. |
| `OutputMappings.StreamPortOutput.Add` | src/controller/avdeccControlledEntityImpl.cpp:1457-1488 | The loop of adds: append, or replace in place what feeds the same stream channel. |
| `OutputMappings.RunsRefineMaps` | src/controller/avdeccControlledEntityImpl.cpp:1444-1520 | Over all runs from the empty list no stream channel has two entries, and the list is the finite map that the run makes: adds update it in sequence, removes delete exactly equal entries, clears empty it. |
| `OutputMappings.PutAllIsUpdate` | src/controller/avdeccControlledEntityImpl.cpp:1457-1488 | A batch add is sequential map update. |
| `OutputMappings.RemoveAllIsDelete` | src/controller/avdeccControlledEntityImpl.cpp:1490-1520 | A batch remove deletes the entries equal to one of the batch, and no others. |
| `OutputMappings.PresentIffSetAndNotUnset` | src/controller/avdeccControlledEntityImpl.cpp:1444-1520 | A mapping is in the list after a run if and only if some step set it and no later step removed, replaced or cleared it. |
| `InvalidMappings.InvalidOfPort` | src/controller/avdeccControlledEntityImpl.cpp:601-631 | Collects, in order, the mappings of the stream that are within the static bounds and beyond the new channel count. |
| `InvalidMappings.GetInvalidMappings` | src/controller/avdeccControlledEntityImpl.cpp:585-641 | Each port with dynamic mappings and at least one invalid one has an entry, which holds exactly those; no other port has. |
| `InvalidMappings.RemovingInvalidLeavesOthers` | src/controller/avdeccControlledEntityImpl.cpp:1412-1442 | Removing the reported mappings leaves the others, as often and in the order they were there, even with duplicates. |
| `InvalidMappings.NoneExceeds` | src/controller/avdeccControlledEntityImpl.cpp:585-641 | After that no mapping of the stream within bounds exceeds the channel count of the format, and removed and remaining mappings make up the old list as multisets. |
| `ExpectedQueries.KeyIsInjective` | src/controller/avdeccControlledEntityImpl.cpp:2542-2545 | Over all 16-bit inputs the packed key tells a query from every other of its kind. |
| `ExpectedQueries.DynamicInfoKeyHalves` | src/controller/avdeccControlledEntityImpl.cpp:2598-2601 | The exact key when the shifted `int` sign-extends: the lower half is intact, and the upper half is one less, wrapping at zero. |
| `ExpectedQueries.DescriptorDynamicInfoKeyIsPlain` | src/controller/avdeccControlledEntityImpl.cpp:2661-2664 | This key is the plain concatenation of its parts. |
| `ExpectedQueries.Enumeration.SetExpected` | src/controller/avdeccControlledEntityImpl.cpp:2565-2573 | The query becomes outstanding, in the set of tuples that the tables of keys stand for. |
| `ExpectedQueries.Enumeration.CheckAndClear` | src/controller/avdeccControlledEntityImpl.cpp:2547-2563 | True exactly when the query is outstanding and there was no fatal error; it is then outstanding no more. |
| `ExpectedQueries.Enumeration.ClearAll` | src/controller/avdeccControlledEntityImpl.cpp:2631-2636 | Drops the outstanding queries of one kind and no others. |
| `ExpectedQueries.Enumeration.GotAll` | src/controller/avdeccControlledEntityImpl.cpp:2575-2585 | True exactly when no query of the kind is outstanding in any configuration. |
| `ExpectedQueries.OutstandingIffAsked` | src/controller/avdeccControlledEntityImpl.cpp:2547-2585 | Over all runs a query is outstanding if and only if it was asked and nothing has ended the wait since. |
| `ExpectedQueries.AcceptedIffAsked` | src/controller/avdeccControlledEntityImpl.cpp:2603-2619 | Over all runs an answer is accepted if and only if its query was asked, neither answered nor cleared since, and there was no fatal error. |
| `ExpectedQueries.AcceptedOnce` | src/controller/avdeccControlledEntityImpl.cpp:2666-2682 | Between two accepted answers to the same query it was asked again. |
| `UnsolicitedTracking.ControlledEntity.HasLost` | src/controller/avdeccControlledEntityImpl.cpp:2884-2900 | Reports a mismatch only while tracking and with an expected ID, and moves the expected ID of that protocol on. |
| `UnsolicitedTracking.ControlledEntity.SetSubscribed` | src/controller/avdeccControlledEntityImpl.cpp:2800-2810 | Unsubscribing resets both expected IDs. |
| `UnsolicitedTracking.ControlledEntity.HandleUnsolicited` | src/controller/avdeccControllerImplDelegateOverrides.cpp:1056-1100 | A loss is counted, ends the subscription and resets both trackers before the notification is counted. |
| `UnsolicitedTracking.ExpectsOnlyWhileSubscribed` | src/controller/avdeccControlledEntityImpl.cpp:2800-2810 | Over all runs an ID is expected only while subscribed. |
| `UnsolicitedTracking.ExpectedIffPreceded` | src/controller/avdeccControlledEntityImpl.cpp:2884-2910 | Over all runs the expected ID is the successor modulo 2^16 of the last tracked one of its protocol, and exists exactly while the subscription has lasted since that one. |
| `UnsolicitedTracking.LossIffGap` | src/controller/avdeccControllerImplDelegateOverrides.cpp:1056-1110 | A loss is reported if and only if the notification is tracked and is not the successor of its tracked predecessor. |
| `UnsolicitedTracking.ReceivedAreCounted` | src/controller/avdeccControllerImplDelegateOverrides.cpp:1090-1099 | Every notification is counted once, for its own protocol. |
| `UnsolicitedTracking.LossIsCounted` | src/controller/avdeccControllerImplDelegateOverrides.cpp:1069-1088 | Every loss is counted once, for its own protocol, and ends the subscription. |
| `UnsolicitedTracking.LossesAreBounded` | src/controller/avdeccControllerImplDelegateOverrides.cpp:1069-1088 | AEM and MVU losses together, plus one while subscribed, never exceed the number of subscriptions. |
| `SharedLock.LockInformation.UnlockAll` | src/controller/avdeccControlledEntityImpl.hpp:96-110 | Releases the lock entirely and returns the depth it had. |
| `SharedLock.LockInformation.LockAll` | src/controller/avdeccControlledEntityImpl.hpp:88-94 | Takes the lock that many times more. |
| `SharedLock.StepKeepsInv` | src/controller/avdeccControlledEntityImpl.hpp:58-116 | Every step of every thread, between any two accesses to the mutex and the two fields, keeps the invariant. |
| `SharedLock.SelfLockedIffHeld` | src/controller/avdeccControlledEntityImpl.hpp:112-115 | In every reachable state a thread outside the lock and unlock bodies sees itself as holder if and only if it owns the mutex, and the count is then its recursion depth. |
| `SharedLock.BodiesExclude` | src/controller/avdeccControlledEntityImpl.hpp:66-86 | No two threads are in the bodies of lock and unlock. |
| `SharedLock.GuardReleases` | src/controller/avdeccControllerImpl.hpp:582-590 | A guard that has just been made leaves its thread without the lock. |
| `LockProgress.LockLocks` | src/controller/avdeccControlledEntityImpl.hpp:66-74 | From every reachable state in which the mutex is free for an idle thread, lock comes to its end and the thread holds the lock once more. |
| `LockProgress.UnlockUnlocks` | src/controller/avdeccControlledEntityImpl.hpp:76-86 | Likewise unlock, by the holder, gives it back once. |
| `LockProgress.GuardTakes` | src/controller/avdeccControllerImpl.hpp:582-590 | Likewise a new guard gives the lock back entirely and remembers how often it was held. |
| `LockProgress.GuardGivesBack` | src/controller/avdeccControllerImpl.hpp:592-598 | Likewise the end of a guard takes the lock again as often as it remembers. |
| `SharedLock.GuardsRestoreDepth` | src/controller/avdeccControllerImpl.hpp:579-612 | For any nesting of guards and any interleaving, back in the scopes it was in, a thread holds the lock as often as before, up to its own locks less its own unlocks. |
| `EntityGraph.Accept` | src/controller/avdeccControlledEntityImpl.cpp:810-1018 | The traversal yields the visits of the graph; unless all configurations are asked for, those of the whole traversal but for all that is within an inactive configuration, in the same order. |
| `EntityGraph.ActiveVisits` | src/controller/avdeccControlledEntityImpl.cpp:829-838 | Relates the two ways of asking: a visit remains if and only if it is to the entity, to a configuration, or within an active one. |
| `EntityVisits.VisitsHave` | src/controller/avdeccControlledEntityImpl.cpp:810-1018 | Exactly the nodes are visited through their parents, and exactly those that a redundant stream, a clock domain or a timing refers to through references. |
| `EntityVisits.VisitsInOrder` | src/controller/avdeccControlledEntityImpl.cpp:810-1018 | A node is visited before all that is below it and siblings one after the other, what is met through references after the node that refers. |
| `EntityGraph.VisitsAgree` | src/controller/avdeccControlledEntityImpl.cpp:810-1018 | Graphs that differ in dynamic models alone are visited alike, node by node. |
| `EntityTree.ControlledEntity.GetEntityModelTree` | src/controller/avdeccControlledEntityImpl.cpp:4322-4342 | The first call builds the tree of the graph, later ones refresh it; an entity that cannot be visited keeps what it has. |
| `EntityTree.FullBuildsTree` | src/controller/avdeccControlledEntityImpl.cpp:3675-4054 | Whatever there was, the full visitor leaves the tree of the graph; virtual visits leave no trace. |
| `EntityTree.TreeHasNode` | src/controller/avdeccControlledEntityImpl.cpp:3675-4054 | The tree of a graph has every node of it but redundant streams, at its path, with its static and dynamic model. |
| `EntityTree.TreeHasOnlyNodes` | src/controller/avdeccControlledEntityImpl.cpp:3675-4054 | And no other node. |
| `EntityTree.RefreshedIsRebuilt` | src/controller/avdeccControlledEntityImpl.cpp:4057-4319 | For graphs with the same nodes and static models, refreshing the tree of one over the other gives the tree a rebuild would give: `operator[]` creates no key and none is lost. |
| `EntityTree.CachedIsRebuilt` | src/controller/avdeccControlledEntityImpl.cpp:4322-4334 | The same after any number of calls. |
| `EntityTree.RefreshedIffFresh` | src/controller/avdeccControlledEntityImpl.cpp:4057-4334 | For every tree and every graph: refreshing the tree gives what a rebuild would give if and only if the tree has the static models of the graph, no node that the graph lacks, and lacks only nodes that the dynamic visitor makes as the full one would (those whose static model is the default one, with a dynamic model). |
| `EntityTree.RefreshedIsStale` | src/controller/avdeccControlledEntityImpl.cpp:4322-4334 | A node that is gone from the graph, at any depth, stays in a refreshed tree, which is then not the tree of the graph. |
| `ChecksumVisitor.ChecksumEntityModelVisitor.Visit` | src/controller/entityModelChecksum.cpp:404-911 | Each visit appends the types of its ancestors, its own header and its static model, or less, as its kind, its way of being reached and the version demand. |
| `ChecksumVisitor.SortCounts` | src/controller/entityModelChecksum.cpp:422-429 | Whatever the order in which descriptor counts are met, the sorted map is the same. |
| `ChecksumVisitor.ChecksumEntityModelVisitor.SerializeCounts` | src/controller/entityModelChecksum.cpp:422-429 | The counts are serialized in increasing order of their types. |
| `ChecksumVisitor.ComputeEntityModelChecksum` | src/controller/avdeccControllerImpl.cpp:8083-8093 | No checksum for a model that is not valid for caching; otherwise the digest of the stream of Milan info and visits. |
| `ChecksumVisitor.ChecksumIsStatic` | src/controller/entityModelChecksum.cpp:404-911 | From version 3 on, over all configurations, stream and checksum depend on nodes, static models, redundant nodes and Milan info alone. |
| `ChecksumVisitor.StreamIsStaticIff` | src/controller/entityModelChecksum.cpp:578-610 | For every version: two entities with the same nodes and static models (and active configurations, if only those are visited) give the same stream if and only if they agree in the dynamic fields that versions 1 and 2 read of AVB interfaces. |
| `ChecksumContent.StreamTellsModels` | src/controller/entityModelChecksum.cpp:404-911 | From version 2 on, two models with the same nodes and runs of equal lengths give the same stream if and only if they agree, node by node, in all that is read: fields, counts or references, flags and trailers. |
| `ChecksumContent.RealNodesAreSerialized` | src/controller/entityModelChecksum.cpp:404-911 | Which nodes are serialized with their static model, by kind, place and version. |
| `ChecksumContent.ReferencesAreSerialized` | src/controller/entityModelChecksum.cpp:780-911 | What is serialized of a node met through a reference: the header of a stream of a redundant pair, a clock source in version 1 alone, nothing of a PTP instance. |
| `ChecksumContent.AncestorTypes` | src/controller/entityModelChecksum.cpp:319-332 | Which ancestor types precede the header of a node, and where. |
| `ChecksumVisitor.NodeBytesDistinguish` | src/controller/entityModelChecksum.cpp:334-349 | Two serialized headers are the same if and only if kind and index are, for descriptors and for redundant streams. |
| `ChecksumVisitor.CountBytesDistinguish` | src/controller/entityModelChecksum.cpp:422-429 | The serialized counts are the same if and only if the counts are. |
| `ChecksumVisitor.VisitBytesEqualIff` | src/controller/entityModelChecksum.cpp:578-610 | The same for one visit, with equal lengths. |
| `ModelCache.EntityModelCache.CacheEntityModel` | src/controller/avdeccEntityModelCache.hpp:90-116 | A cached model is replaced only when it is incomplete and the new one is complete. |
| `ModelCache.CacheHoldsFirst` | src/controller/avdeccEntityModelCache.hpp:72-116 | Over all runs the cache holds, for an identifier, the first complete model it was given while enabled, or else the first one. |

## Left out

- Executor: modelled on values, as steps of a state machine instead of methods of a class, because its claims are about interleavings; memory accesses are sequentially consistent.
- Executor: the thirty-second timeout of a flush is a branch that may be taken at any time; jobs do not call back into the executor and do not throw; that a call returns is shown as a possibility, without fairness and without when a notified worker wakes.
- Executor: calls of push and flush after the end of the worker are part of the machine, but a flush then waits for its timeout.
- StreamFormats: the timestamp interval and the pull fields special to clock reference formats beyond rate and type; the assertions on label counts in the 61883-6 parser, which only warn; the widths of the C++ types that fields are read into, which every use in the file fits.
- Redundancy: the non-strict build, in which a node may hold more than two streams; virtual names of redundant nodes; several configurations over one pair of caches.
- AudioMappings: the lookup of ports, log messages, and the duplicate warning, which leaves the list as it is.
- InvalidMappings: audio units, since stream port indexes are unique in a configuration; ports come as one sequence with distinct indexes.
- ExpectedQueries: the sets for packed dynamic info, Milan info and single flags, which have no packed keys; retry counters; the assertion that the lock is held.
- UnsolicitedTracking: notification of observers, the request to deregister, and the 64-bit width of the counters.
- SharedLock: the 32-bit width of the lock count and of the depth of the mutex; moving a guard out of its scope; the data race of reading the holder without the mutex, which is taken as sequentially consistent.
- EntityGraph: accept is a recursive traversal of nodes with ordered children, in place of one loop for each kind; kinds that the loops skip (external and internal ports) have no nodes.
- EntityTree: types of models; default-constructed models are one fixed value.
- ChecksumVisitor: the single fields of static models, which are runs of bytes; whether a model is valid for caching is a parameter.
- FixOfRawIsChecked: with removes that meet lists that are not well-formed a given run may still agree, by chance of what is removed; only for which lists every remove is safe is settled.
- ModelCache: the checks of descriptor counts that precede caching, and its mutex.
- Descriptor copy setters, the watchdog, sockets, files, JSON, logging and user interface: field copies, input and output, or nothing to prove beyond one body.
