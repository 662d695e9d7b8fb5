# Verified models of the sanitizer runtime

This project models four parts of the runtime under `ufo-rt/lib` and proves what
they promise over whole runs:

1. **The AddressSanitizer heap** (`asan_allocator.cc` with `asan_activation.cc`,
   `asan_allocator.h` and the verdict in `asan_errors.cc`).
   `ChunkLayout` is the placement arithmetic and the bit-packed header,
   `HeapMemory` the memory the allocator writes, `HeapMachine` the heap as a state
   machine in which any number of threads allocate, free and recycle in interleaved
   steps. `HeapMetadata`, `HeapShadow` and `HeapAccounts` are the invariants each
   step keeps, `HeapSafety` what follows for every run, `HeapLife` one chunk's whole life,
   `HeapRuntime` the routines as imperative code over the same memory. `Activation`, `ChunkLookup` and `Verdict`
   build on it.
2. **The Blocks runtime** (`BlocksRuntime/runtime.c`): `BlockFlags`, `RefcountRace`
   (racing reference counts, and teardown of objects that hold further references), `BlockMemory`,
   `BlockRoundTrip` and `BlockRuntime` (copying and releasing nests of closures), `ByrefCell` (forwarding).
3. **The fake stack** (`asan_fake_stack.cc`, `asan_fake_stack.h`): `FakeStackLayout`,
   `FakeStack`, `FakeStackRuntime`, `FakeStackShadow`, `FakeStackRuns` (frames and their shadow together).
4. **Report logic** (`asan_descriptions.cc`): `StackVariables`, `ThreadDescription`.

`Pow2`, `Sums`, `Shadow` and `Wrappers` hold shared arithmetic, sums, shadow memory and types.

## How the heap machine is set up

The state holds memory (header words, magic pairs, secondary metadata, shadow), the
threads' program counters, the quarantine and the statistics, and beside them records that no
step reads: each chunk's life, and four sets that follow shadow. An event is one atomic piece of
a routine: picking a raw block, filling the chunk, publishing it, the compare-and-exchange of a
free, quarantining, pushing, taking out, recycling, giving the raw block back; or mapping a block,
changing the redzone options, switching poisoning off or on, and a sweep's visit of one block. Any
event can come between any two others: poisoning may be switched, and a sweep may be under way,
while threads are in the middle of operations. Every CHECK in these routines, the sweep's size
query included, is evaluated on memory; a failing one sets a flag and the process stops. The words
are 64 bits, the shadow granule is 8.

The four sets: a block is *lined* when it was mapped while poisoning was on. A block is *sound* when it was last mapped or poisoned as a whole while poisoning
was on, or visited by a sweep, and since then no write to its shadow was left out because
poisoning was off. A chunk is *tagged* when it was freed while poisoning was on and not visited
since. A chunk is *caught* when a visit found it open but not marked ALLOCATED, and nothing has
put it right since.

## What turned out false, and exactly when it holds

- The size computation of Allocate is exact for every power-of-two alignment below 2^63; at
  2^63 it wraps, passes the limit test, and the CHECK on the end of user memory fails
  (`ChunkLayout.NeededSizeWraps`, `ChunkLayout.HugeAlignmentFailsCheck`).
- The raw allocator is asked for 8-byte alignment only. On a merely 8-aligned block the CHECK
  that keeps the magic pair off the header fails exactly for the smallest redzone and a user
  pointer moved by one granule (`ChunkLayout.MagicPairNeedsAlignment`). The heap machine takes
  raw blocks to be 16-aligned, as the size classes make them.
- A sweep does not keep other threads out of the allocator. If it visits a block after Allocate has
  cleared user memory and before Allocate marks the chunk, it poisons memory that is then handed to the
  program (`HeapLife.VisitCatchesAllocation`; from every reached state, `HeapLife.SweepPoisonsAllocation`).
  For every sound block that no thread is working on, shadow is exact if and only if its chunk was not
  caught in this way (`HeapSafety.AddressableIffAllocated`).
- Memory freed while poisoning is off stays addressable after poisoning is back on, until the sweep comes to
  it (`HeapLife.FreedWhileOff`). Every block is sound if poisoning was never off
  (`HeapSafety.SoundIfNeverOff`), and every block handed out is sound once a sweep has visited those
  that were not, whatever other threads did meanwhile (`HeapSafety.SoundAfterSweep`).
- The sweep asks for the size of the chunk, not of the block. For a block of the secondary allocator that
  query aborts unless the header is at the start of the block, which is the case exactly for the 16-byte
  redzone and unmoved user memory (`HeapSafety.SweepQueryExact`), and it reads an unmapped page while
  Allocate has not written the metadata. On 16-aligned raw blocks and with alignments below 2^63 nothing
  else can stop the process: it stops exactly when a visit meets such a block
  (`HeapSafety.FailsExactlyInSweep`). A 256 KiB chunk allocated under the default options is one
  (`HeapSafety.DefaultLargeChunkAborts`, `HeapLife.LargeChunkStopsSweep`), and so is any secondary
  block being filled (`HeapLife.HalfFilledStopsSweep`); chunks allocated while deactivated, with
  alignments up to 16, are not (`Activation.DeactivatedChunkSweeps`).
- The statistics match what memory says chunks hold except in the middle of operations: malloced minus
  freed is what ALLOCATED chunks hold exactly when no chunk is counted and not yet marked, or marked
  QUARANTINE and not yet counted (`HeapSafety.Conservation`).
- While poisoning is off, Allocate leaves the shadow of the last partial granule as it found it; user
  memory is then fully addressable exactly when there is no partial granule or its shadow already
  allowed it (`HeapSafety.ClearedWhileOff`).
- A visit gives quarantined memory the redzone tag, so an access there is then named a buffer overflow
  (`Verdict.SweepLosesTag`, and a run that shows it, `HeapLife.FreeTagIsLost`). In a sound block an access
  to quarantined memory is a use after free exactly when the chunk is tagged (`Verdict.QuarantinedVerdict`).
- The verdict looks at the granule of the first bad byte, or at the next one if that granule is partial, exactly
  when the bad byte is in the first granule the access touches, or in the second for an access of more than
  eight bytes (`Verdict.BlamesFirstBadByte`).
- Options read back after deactivation and activation are the original ones exactly when whole options
  had produced them (`Activation.RestoresExactly`).
- An access wholly before the first stack variable, closer to the start of the frame than to the variable,
  marks no variable (`StackVariables.MarksAreNearest`, `StackVariables.TooEarlyExample`).
- Assign and dispose helpers balance for the eight flag words the compiler emits, and for arbitrary flag
  words under an exact condition (`BlockMemory.FlagsBalance`).

## Model

| member | source | states |
|---|---|---|
| `ChunkLayout.RZSize2Log` | ufo-rt/lib/asan/asan_allocator.cc:38-50 | Inverse of the redzone size for every legal redzone; the log fits three bits. |
| `ChunkLayout.LegalIsChecked` | ufo-rt/lib/asan/asan_allocator.cc:262-268 | The legal redzones are exactly the powers of two from 16 to 2048. |
| `ChunkLayout.ComputeRZLog` | ufo-rt/lib/asan/asan_allocator.cc:346-358 | The adaptive redzone lies between the configured minimum and maximum for every size. |
| `ChunkLayout.RedzoneIsLeast` | ufo-rt/lib/asan/asan_allocator.cc:346-354 | Under the default options the redzone is the smallest whose size limit the chunk stays within. |
| `ChunkLayout.RedzoneGrows` | ufo-rt/lib/asan/asan_allocator.cc:346-358 | A larger request never gets a smaller redzone, whatever the options. |
| `ChunkLayout.RedzoneIsClamped` | ufo-rt/lib/asan/asan_allocator.cc:346-358 | Under any legal options the redzone is the one of the default options, raised to the minimum and cut to the maximum. |
| `ChunkLayout.PlanIsGood` | ufo-rt/lib/asan/asan_allocator.cc:410-447 | A request is refused exactly past the 2^40 limit; every other one gets size max(request, 1), its effective alignment, a needed size that leaves room for all parts, the primary allocator exactly when small, and never the size sentinel in a primary chunk. |
| `ChunkLayout.PlanIsExact` | ufo-rt/lib/asan/asan_allocator.cc:427-447 | For every request, with the bounds as numbers: refused if and only if its size, or its size rounded to the alignment with redzones and room to align, exceeds 2^40; otherwise in the primary allocator if and only if the alignment and what is needed without a right redzone are at most 2^17; the needed size. |
| `ChunkLayout.AcceptsUpToHalf` | ufo-rt/lib/asan/asan_allocator.cc:241-242 | A request that with its alignment and 2048 stays below 2^39 is accepted, under every legal options. |
| `ChunkLayout.PlacementFits` | ufo-rt/lib/asan/asan_allocator.cc:475-496 | On every 16-aligned block of the needed size the user pointer is aligned, user memory ends inside, the header fits, the magic pair does not overlap it; the CHECKs hold. |
| `ChunkLayout.MagicPairNeedsAlignment` | ufo-rt/lib/asan/asan_allocator.cc:453-494 | On 8-aligned blocks, the exact condition under which the magic pair would overlap the header. |
| `ChunkLayout.NeededSizeWraps` | ufo-rt/lib/asan/asan_allocator.cc:427-438 | The 64-bit size equals the unbounded one if and only if the alignment is below 2^63; at 2^63 it is the redzone. |
| `ChunkLayout.HugeAlignmentFailsCheck` | ufo-rt/lib/asan/asan_allocator.cc:436-482 | With alignment 2^63 the limit test passes and the CHECK on user_end fails on every block below 2^63. |
| `ChunkLayout.UnpackPack` | ufo-rt/lib/asan/asan_allocator.cc:73-92 | The packed header words give back every bit-field. |
| `ChunkLayout.HeaderIsNotMagic` | ufo-rt/lib/asan/asan_allocator.cc:71-92 | No header word equals the magic that marks a header placed further up. |
| `ChunkLayout.AlignmentRoundTrip` | ufo-rt/lib/asan/asan_allocator.cc:360-372 | The stored alignment log gives back alignments from 8 to 512, 0 below, 512 above. |
| `HeapMemory.FindBlock` | ufo-rt/lib/sanitizer_common/sanitizer_allocator_secondary.h:181-201 | The scan over the unsorted list of header pages finds the secondary block that an address, or the header page it is in, belongs to. |
| `HeapMemory.LookupSplits` | ufo-rt/lib/sanitizer_common/sanitizer_allocator_combined.h:126-130 | Outside primary blocks the combined lookup is the secondary allocator's. |
| `HeapMemory.BlockBeginFinds` | ufo-rt/lib/sanitizer_common/sanitizer_allocator_combined.h:126-130 | In a heap of disjoint blocks the lookup answers a block if and only if the address is in it or in its header page. |
| `HeapMetadata.MetadataRoundTrip` | ufo-rt/lib/asan/asan_allocator.cc:114-130 | Block leads to chunk, chunk to block, and UsedSize is the recorded size, for any chunk whose metadata is in memory. |
| `HeapMachine.AllocateIsChecked` | ufo-rt/lib/asan/asan_allocator.cc:436-503 | The allocation step fails if and only if one of the CHECKs of Allocate, written out in numbers, is false. |
| `HeapMachine.ChecksAreEvaluated` | ufo-rt/lib/asan/asan_allocator.cc:142-158 | The quarantine and recycle steps fail if and only if the header in memory does not have the state and thread ids, or the block start does not have the marker, that their CHECKs ask for, in numbers. |
| `HeapMetadata.MallocPlaces` | ufo-rt/lib/asan/asan_allocator.cc:424-502 | Every enabled allocation passes all CHECKs of Allocate and places its chunk inside the raw block. |
| `HeapMetadata.FillKeeps` | ufo-rt/lib/asan/asan_allocator.cc:485-522 | Filling a chunk keeps the metadata invariant of all chunks; the unpublished chunk reads AVAILABLE. |
| `HeapMetadata.PublishKeeps` | ufo-rt/lib/asan/asan_allocator.cc:542-543 | Publishing keeps the invariant. |
| `HeapMetadata.FreeKeeps` | ufo-rt/lib/asan/asan_allocator.cc:550-564 | A free either finds a live chunk with all its metadata and moves it on, or changes nothing. |
| `HeapMetadata.QuarantineKeeps` | ufo-rt/lib/asan/asan_allocator.cc:567-590 | The CHECKs of QuarantineChunk hold and the invariant is kept. |
| `HeapMetadata.RecycleKeeps` | ufo-rt/lib/asan/asan_allocator.cc:142-158 | The CHECKs of Recycle hold, the marker is cleared, every cell of the block reads AVAILABLE. |
| `HeapMetadata.ReleaseKeeps` | ufo-rt/lib/asan/asan_allocator.cc:165-204 | Giving a block back, or unmapping it, keeps the invariant of all others. |
| `HeapMetadata.MallocKeeps` | ufo-rt/lib/asan/asan_allocator.cc:449-482 | Handing out a free block keeps the invariant. |
| `HeapMetadata.EventKeeps` | ufo-rt/lib/asan/asan_allocator.cc:142-166 | Every event keeps the metadata invariant. |
| `HeapMetadata.EventFails` | ufo-rt/lib/asan/asan_allocator.cc:142-575 | The only event that can stop the process is a visit, and it does exactly when its size query is not answered. |
| `HeapMetadata.EventMeta` | ufo-rt/lib/asan/asan_allocator.cc:499-507 | Every event keeps: a secondary block has metadata exactly from filling to unmapping, and it describes the block's chunk. |
| `HeapMetadata.NeverStuck` | ufo-rt/lib/asan/asan_allocator.cc:399-610 | A thread in the middle of an operation can always take its next step. |
| `HeapShadow.UnpoisonOpens` | ufo-rt/lib/asan/asan_allocator.cc:512-522 | Clearing user memory of a poisoned block gives exactly the shadow of a chunk in use, in no other block. |
| `HeapShadow.TagsUser` | ufo-rt/lib/asan/asan_allocator.cc:587-590 | Quarantining and recycling retag exactly the granules of user memory. |
| `HeapShadow.DirtyPoisons` | ufo-rt/lib/asan/asan_allocator.cc:466-473 | Allocate starts from a fully poisoned block if the block is sound or came clear; with poisoning on a block never used is one or the other. |
| `HeapShadow.MapShadow` | ufo-rt/lib/asan/asan_allocator.cc:188-194 | A newly mapped block is all redzone, or all clear while poisoning is off; so is, with poisoning on, the header page before a secondary block; what holds of all other blocks and header pages is kept. |
| `HeapShadow.ReleaseSecondary` | ufo-rt/lib/asan/asan_allocator.cc:195-204 | Unmapping leaves clear shadow behind and touches no other block. |
| `HeapShadow.RePoisonOne` | ufo-rt/lib/asan/asan_allocator.cc:294-316 | A visit gives its block exactly the shadow its chunk's state in memory calls for, whatever its shadow was and whoever is working on it. |
| `HeapShadow.EventSound` | ufo-rt/lib/asan/asan_allocator.cc:466-473 | While poisoning is on no step makes a block unsound, none that is not sound is handed out for the first time, and a visit makes its block sound. |
| `HeapSafety.SweepWorks` | ufo-rt/lib/asan/asan_allocator.cc:322-331 | A sweep in any order, with repetitions and any steps of other threads in between, puts right every block it visits. |
| `HeapSafety.SoundAfterSweep` | ufo-rt/lib/asan/asan_allocator.cc:317-332 | Once poisoning is on, a sweep that visits every block handed out that is not sound leaves every block handed out sound, also those allocated or freed while it was off. |
| `HeapSafety.SoundIfNeverOff` | ufo-rt/lib/asan/asan_allocator.cc:466-473 | If poisoning was on from the start and never off, every block is sound. |
| `HeapShadow.EventShadow` | ufo-rt/lib/asan/asan_allocator.cc:142-190 | Every event keeps the shadow invariant. |
| `HeapShadow.EventTags` | ufo-rt/lib/asan/asan_allocator.cc:587-590 | With poisoning on every step but a visit leaves all freed chunks tagged. |
| `HeapAccounts.EventLogs` | ufo-rt/lib/asan/asan_allocator.cc:399-631 | Every event keeps the log: chunks match what was requested, each allocation is put and recycled at most once. |
| `HeapAccounts.EventBooks` | ufo-rt/lib/asan/asan_allocator.cc:524-527 | Every event keeps the statistics of all threads together equal to what open and closed chunks hold. |
| `HeapAccounts.Reached` | ufo-rt/lib/asan/asan_allocator.cc:142-631 | All invariants hold in every state any run reaches. |
| `HeapSafety.FailsExactlyInSweep` | ufo-rt/lib/asan/asan_allocator.cc:142-575 | In every interleaving of any number of threads, switches and visits the process stops if and only if a visit meets a secondary block whose metadata is not written or whose chunk header is not at the start of the block. |
| `HeapSafety.StopsAtOffStart` | ufo-rt/lib/asan/asan_allocator.cc:294-300 | The same in terms of chunks: while the chunk is being filled, or when its header is elsewhere. |
| `HeapSafety.NoCheckFails` | ufo-rt/lib/asan/asan_allocator.cc:550-575 | Without a sweep no CHECK fails, whatever threads free what and when. |
| `HeapSafety.QuarantinedAndRecycledOnce` | ufo-rt/lib/asan/asan_allocator.cc:550-575 | Each allocation is quarantined at most once, recycled at most once and only afterwards; both exactly once when its chunk is gone. |
| `HeapSafety.WinnerSeesMetadata` | ufo-rt/lib/asan/asan_allocator.cc:547-564 | The free that wins finds every header field as Allocate wrote it and the requested size. |
| `HeapSafety.OneOwner` | ufo-rt/lib/asan/asan_allocator.cc:629-631 | No two threads ever work on the same chunk. |
| `HeapSafety.MetadataSurvives` | ufo-rt/lib/asan/asan_allocator.cc:706-717 | In every run, under later option changes, each chunk leads to its block and back, with the requested size, 1 for a request of 0. |
| `HeapSafety.AddressableAtEveryStep` | ufo-rt/lib/asan/asan_mapping.h:382-394 | In every state of every run, with operations and sweeps half done: a byte of a sound block is addressable if and only if it is user memory of an open chunk; of a caught chunk at most bytes past its last whole granule are. |
| `HeapSafety.AddressableIffAllocated` | ufo-rt/lib/asan/asan_allocator.cc:142-166 | In every state of every run, for every sound block no thread is working on: the addressable bytes are exactly those in [Beg, Beg+UsedSize) of a chunk memory says is ALLOCATED, rounded to granules without partial poisoning, if and only if no visit caught the chunk. |
| `HeapSafety.ClearedWhileOff` | ufo-rt/lib/asan/asan_allocator.cc:512-522 | While poisoning is off, exactly when all user memory ends up addressable. |
| `HeapSafety.Conservation` | ufo-rt/lib/asan/asan_allocator.cc:160-163 | In every state of every run, summed over threads, in bytes and operations: malloced minus freed is what ALLOCATED chunks hold plus what is half done, freed minus really freed what QUARANTINE chunks hold less what is half done; the exact condition for no half-done term. |
| `HeapSafety.IdleConservation` | ufo-rt/lib/asan/asan_allocator.cc:160-163 | With all threads idle there is none. |
| `HeapSafety.SweepQueryExact` | ufo-rt/lib/asan/asan_allocator.cc:294-300 | The sweep's size query on a secondary block succeeds if and only if the header is at the start of the block. |
| `HeapSafety.DefaultLargeChunkAborts` | ufo-rt/lib/sanitizer_common/sanitizer_allocator_secondary.h:292-295 | A concrete request under default options whose block fails that query. |
| `HeapLife.AllocatesOn` | ufo-rt/lib/asan/asan_allocator.cc:399-546 | From any reachable state an allocation can be finished and adds one live chunk, nothing else. |
| `HeapLife.FreesOn` | ufo-rt/lib/asan/asan_allocator.cc:567-606 | Freeing a live chunk can be finished and leaves it in the quarantine with the freeing thread recorded. |
| `HeapLife.RecyclesOn` | ufo-rt/lib/asan/asan_allocator.cc:142-166 | Recycling a quarantined chunk can be finished and leaves nothing of it. |
| `HeapLife.ThereAndBack` | ufo-rt/lib/asan/asan_allocator.cc:142-649 | Allocate, free and recycle in a row: chunks, blocks handed out and quarantine are as before, a secondary block is unmapped. |
| `HeapLife.LargeChunkStopsSweep` | ufo-rt/lib/asan/asan_allocator.cc:294-300 | From every state: after a secondary allocation whose header is not at the start of its block, a visit of the block stops the process. |
| `HeapLife.HalfFilledStopsSweep` | ufo-rt/lib/asan/asan_allocator.cc:294-300 | From every reached state: so does a visit while a secondary allocation has not written its metadata. |
| `HeapLife.VisitCatchesAllocation` | ufo-rt/lib/asan/asan_allocator.cc:512-543 | In every state: a visit between the clearing of user memory and the marking of the chunk leaves all user memory allocated and denied. |
| `HeapLife.SweepPoisonsAllocation` | ufo-rt/lib/asan/asan_allocator.cc:322-331 | From every reached state such a run exists. |
| `HeapLife.FreedWhileOff` | ufo-rt/lib/asan/asan_allocator.cc:587-590 | From every reached state with poisoning on and a sound block: what is freed while poisoning is off stays addressable when it is on again and no sweep has come. |
| `HeapLife.FreeTagIsLost` | ufo-rt/lib/asan/asan_allocator.cc:310-314 | From every reached state with poisoning on and a sound block: allocate and free, and an access there is a use after free; off and on with a visit, and the same access is a buffer overflow. |
| `HeapRuntime.Heap.Allocate` | ufo-rt/lib/asan/asan_allocator.cc:399-546 | Returns nothing, and changes nothing, if and only if the request exceeds the 2^40 limit; otherwise a pointer aligned as requested, at least the minimal redzone into the block and with the whole size before its end; leaves memory as the machine's steps do. |
| `HeapRuntime.Heap.FillChunk` | ufo-rt/lib/asan/asan_allocator.cc:485-527 | In-place writes of header, marker, metadata, shadow and statistics equal the specification. |
| `HeapRuntime.Heap.Deallocate` | ufo-rt/lib/asan/asan_allocator.cc:610-649 | Wins exactly when it finds ALLOCATED; otherwise nothing changes. |
| `HeapRuntime.Heap.QuarantineChunk` | ufo-rt/lib/asan/asan_allocator.cc:567-594 | Records the thread, poisons user memory and counts, as specified. |
| `HeapRuntime.Heap.Recycle` | ufo-rt/lib/asan/asan_allocator.cc:142-166 | State, shadow, marker and statistics as specified; reports whether each CHECK held. |
| `HeapRuntime.Heap.RePoisonChunk` | ufo-rt/lib/asan/asan_allocator.cc:294-316 | In-place re-poisoning equals the specification, or the size query is not answered and nothing changes. |
| `HeapRuntime.Heap.SweepAll` | ufo-rt/lib/asan/asan_allocator.cc:322-331 | The loop over blocks equals the specified sweep, and gets to its end exactly when every size query is answered. |
| `HeapRuntime.AllocateIsThreeSteps` | ufo-rt/lib/asan/asan_allocator.cc:399-546 | Allocate run alone equals the machine's three steps in a row. |
| `HeapRuntime.LiveIsInShadow` | ufo-rt/lib/asan/asan_poisoning.cc:34-42 | The range CHECKs of PoisonShadow hold for every live chunk of a reachable heap. |
| `HeapRuntime.DeallocateIsTwoSteps` | ufo-rt/lib/asan/asan_allocator.cc:610-649 | The machine's exchange and quarantine steps in a row equal a winning Deallocate, on memory and statistics. |
| `HeapRuntime.RecycledIsInShadow` | ufo-rt/lib/asan/asan_allocator.cc:142-158 | What Recycle asks for, and its CHECKs, hold for every chunk taken out of the quarantine. |
| `HeapRuntime.VisitIsReady` | ufo-rt/lib/asan/asan_allocator.cc:294-316 | What RePoisonChunk asks for holds of every block a sweep can come to, in every reached state. |
| `HeapRuntime.SweepIsVisits` | ufo-rt/lib/asan/asan_allocator.cc:322-331 | A sweep nobody interrupts does to memory what the machine's visits do in a row. |
| `Activation.Activator.Deactivate` | ufo-rt/lib/asan/asan_activation.cc:97-122 | Stashes the settings and leaves minimal redzones, no quarantine, context size 1, no mismatch reports, null returns allowed, poisoning off; its option CHECKs hold. |
| `Activation.Activator.Activate` | ufo-rt/lib/asan/asan_activation.cc:125-142 | No effect unless deactivated; otherwise comes through exactly when the flags the environment's override makes of the stashed ones have redzones that are powers of two from 16 to 2048 and no quarantine without a thread-local part, and then works by those flags. |
| `Activation.OverridesWhatWas` | ufo-rt/lib/asan/asan_activation.cc:46-78 | The flags an override starts from are the ones the runtime was working by. |
| `Activation.RestoresExactly` | ufo-rt/lib/asan/asan_activation.cc:46-78 | Off and on again without override restores every setting if and only if options had produced the settings. |
| `Activation.OptionsRoundTrip` | ufo-rt/lib/asan/asan_allocator.cc:334-343 | Options set and read back are the same, through shifts and narrowing. |
| `Activation.ActivationChecks` | ufo-rt/lib/asan/asan_allocator.cc:262-278 | The CHECKs on activation hold if they held when the options were set. |
| `Activation.DeactivatedChunkSweeps` | ufo-rt/lib/asan/asan_activation.cc:112-119 | A chunk allocated while deactivated has its header at the start of its block. |
| `Activation.OnSettings` | ufo-rt/lib/asan/asan_activation.cc:125-142 | Coming on installs the restored settings; the process stops in the sweep exactly when a visit meets a secondary block off its start, and never if the restored switch is off. |
| `Activation.SettingsBack` | ufo-rt/lib/asan/asan_activation.cc:97-142 | From any reached state whose settings came from options, off and on again with other threads running throughout: redzones and poisoning switch are what they were before; the process stops in the sweep exactly when a visit meets such a block, and only if poisoning was on before. |
| `Activation.OffAndOnAgain` | ufo-rt/lib/asan/asan_activation.cc:97-142 | If poisoning was on before and the sweep visits the blocks handed out that are not sound: all are sound again, and in those at rest shadow is exact if and only if no visit caught the chunk. |
| `ChunkLookup.ChooseChunk` | ufo-rt/lib/asan/asan_allocator.cc:375-396 | An allocated chunk before any other, then a quarantined one, else the nearer one, the right one if equally near; the CHECKs hold. |
| `ChunkLookup.BetterIsChosen` | ufo-rt/lib/asan/asan_allocator.cc:375-396 | The ranking the lookup results are stated with makes that choice, the states given as numbers. |
| `ChunkLookup.BetterIsBest` | ufo-rt/lib/asan/asan_allocator.cc:375-396 | Nobody ranks above the chosen chunk and nobody of equal rank is nearer. |
| `ChunkLookup.FindHeapChunkByAddress` | ufo-rt/lib/asan/asan_allocator.cc:739-757 | The leftward loop computes the specified lookup. |
| `ChunkLookup.SearchStopsAtBlock` | ufo-rt/lib/asan/asan_allocator.cc:747-752 | The loop stops just before the block and its header page: it sees the chunk ending there, nothing, or runs out of page. |
| `ChunkLookup.LookupIsBest` | ufo-rt/lib/asan/asan_allocator.cc:739-757 | The answer is the block's own chunk unless the address is in its left redzone and the neighbour is better. |
| `ChunkLookup.ReachedIsHomed` | ufo-rt/lib/asan/asan_allocator.cc:706-729 | In every reached state a block leads to a chunk inside it, or to none if it is a secondary block without metadata. |
| `ChunkLookup.ReachedIsWellFormed` | ufo-rt/lib/asan/asan_allocator.cc:706-729 | In every reached state what the lookup needs holds around every block that has a chunk or is free. |
| `ChunkLookup.OverflowIsAttributed` | ufo-rt/lib/asan/asan_allocator.cc:739-757 | Whatever other threads do, an access just past an allocated chunk is blamed on it unless the next chunk is allocated too. |
| `ChunkLookup.DescribeAccess` | ufo-rt/lib/asan/asan_descriptions.cc:105-126 | Side, first bad byte and offset of an access relative to a chunk; every access gets a side. |
| `Verdict.Classify` | ufo-rt/lib/asan/asan_errors.cc:397-461 | The name that belongs to the literal shadow byte of the first bad byte's granule, or of the next one after a partial granule, whenever that granule is in reach; unknown-crash for an empty access or one outside memory. |
| `Verdict.NamedOnce` | ufo-rt/lib/asan/asan_errors.cc:408-468 | Every byte value has exactly one name, given by a table of literal bytes. |
| `Verdict.BlamesFirstBadByte` | ufo-rt/lib/asan/asan_errors.cc:398-405 | The code looks at the granule to blame if and only if it is in reach. |
| `Verdict.RunsBlameFirstBadByte` | ufo-rt/lib/asan/asan_errors.cc:398-405 | The same for every shadow any run of the heap produces. |
| `Verdict.QuarantinedVerdict` | ufo-rt/lib/asan/asan_errors.cc:397-419 | In every state of every run, for a sound block: an access starting in quarantined user memory is heap-use-after-free if and only if the chunk was freed with poisoning on and not visited since, else heap-buffer-overflow. |
| `Verdict.QuarantinedIsUseAfterFree` | ufo-rt/lib/asan/asan_errors.cc:415-419 | With poisoning on from the start, never off, and no sweep, an access starting in quarantined user memory is always heap-use-after-free. |
| `Verdict.SweepLosesTag` | ufo-rt/lib/asan/asan_allocator.cc:310-314 | After a visit a quarantined chunk's block is all redzone and the verdict there is heap-buffer-overflow. |
| `Verdict.LeftRedzoneIsOverflow` | ufo-rt/lib/asan/asan_errors.cc:397-414 | In every state of every run, an access starting in the left redzone of any chunk of a sound block, at any stage, is heap-buffer-overflow. |
| `Verdict.RightOverflowIsOverflow` | ufo-rt/lib/asan/asan_errors.cc:397-414 | In every state of every run, an access starting at a denied byte past the end of an allocated chunk of a sound block, also in its partial granule, is heap-buffer-overflow when the next granule is in the same block, starts another sound one, or starts the header page of a lined one. |
| `Verdict.HeaderPageIsOverflow` | ufo-rt/lib/sanitizer_common/sanitizer_allocator_secondary.h:97-103 | After any run that maps a secondary block while poisoning is on, whatever happens then, until it is unmapped: every granule of its header page reads the heap redzone tag, no byte there is addressable, an access starting there is heap-buffer-overflow. |
| `Shadow.PoisonShadow` | ufo-rt/lib/asan/asan_poisoning.cc:34-42 | A non-zero value is written only while poisoning is on; zero always. |
| `Shadow.PoisonPartialRightRedzone` | ufo-rt/lib/asan/asan_poisoning.h:78-93 | Every granule of the range gets the right byte, no other granule changes. |
| `BlockFlags.FlagBits` | ufo-rt/lib/BlocksRuntime/Block_private.h:51-56 | Which bit of the whole word each predicate reads, and what a latched count is. |
| `BlockFlags.Incr` | ufo-rt/lib/BlocksRuntime/runtime.c:116-127 | Adds one to the count or leaves a latched one; the high half is unchanged. |
| `BlockFlags.Decr` | ufo-rt/lib/BlocksRuntime/runtime.c:145-158 | Subtracts one unless latched or zero; the high half is unchanged. |
| `BlockFlags.HeapWord` | ufo-rt/lib/BlocksRuntime/runtime.c:317-319 | A fresh heap word has the given count and the old high half with the needs-free bit set. |
| `RefcountRace.StepKeepsInv` | ufo-rt/lib/BlocksRuntime/runtime.c:116-158 | Every load and swap of every thread, inside dispose helpers too, keeps the ownership invariant. |
| `RefcountRace.CountsAreOwners` | ufo-rt/lib/BlocksRuntime/runtime.c:285-482 | In every interleaving: count equals owners, threads and objects, until latched; alive if and only if latched or owned; freed at most once, after its dispose helper ran exactly once if it has one, and holding nothing any more; no underflow; no operation reaches freed memory. |
| `RefcountRace.LatchIsForever` | ufo-rt/lib/BlocksRuntime/runtime.c:116-158 | A latched count never changes and its object is never freed; the high half of a word never changes. |
| `RefcountRace.TeardownFrees` | ufo-rt/lib/BlocksRuntime/runtime.c:459-496 | A release under way, left to run alone, ends, through every nested dispose helper, with each object its thread was taking down freed once and holding nothing; references only go, none comes or changes hands. |
| `RefcountRace.ReleaseRuns` | ufo-rt/lib/BlocksRuntime/runtime.c:414-482 | From every invariant state a release can be run alone to its end: its reference is gone and the object has that owner less; if it was the last one and the count not latched, the object is freed once after its dispose helper, else it lives, only this reference went, and the count is one less unless latched. |
| `RefcountRace.CopyRuns` | ufo-rt/lib/BlocksRuntime/runtime.c:116-127 | From every invariant state a copy of a heap object can be run alone to its end: one new reference held by that thread, the count one more unless latched, nothing else. |
| `RefcountRace.NewHolds` | ufo-rt/lib/BlocksRuntime/runtime.c:309-386 | A new Block has one owner and count 1, a new byref two and count 2; it holds exactly what it captured, and all other objects and references stay. |
| `RefcountRace.GivenAway` | ufo-rt/lib/BlocksRuntime/runtime.c:459-482 | A reference handed to another thread can be released by that thread and not by the first. |
| `BlockMemory.FlagsBalance` | ufo-rt/lib/BlocksRuntime/runtime.c:560-609 | Assign takes a reference where dispose drops one, for exactly the stated flag words, the compiler's eight among them, and what those eight take and drop, in numbers. |
| `BlockRoundTrip.TookField` | ufo-rt/lib/BlocksRuntime/runtime.c:560-588 | Assigning a captured field grows memory by exactly the references and cells of a forest, and answers, at every depth, what the flags ask for: the same heap Block or object, a new heap copy of a stack Block, the heap cell of a byref, NULL only for NULL or a failed allocation. |
| `BlockRoundTrip.DisposeForest` | ufo-rt/lib/BlocksRuntime/runtime.c:593-609 | Disposing fields drops exactly the references the forest holds and frees exactly its fresh cells. |
| `BlockRoundTrip.CopyIsRight` | ufo-rt/lib/BlocksRuntime/runtime.c:285-326 | The answer of a copy that took a tree: NULL exactly for NULL or a failed allocation; the Block itself exactly for a global or heap one, whose count goes up unless latched; for a stack one a new heap Block with count 1, the upper half with needs-free, the same field flags, and without a helper the same fields. |
| `BlockRoundTrip.CopyThenRelease` | ufo-rt/lib/BlocksRuntime/runtime.c:285-326 | For any acyclic nest, malloc failing anywhere: the copy answers as in `BlockRoundTrip.CopyIsRight`, and after its release all copies are freed and every earlier count restored, up to latching and moved byrefs. |
| `BlockRuntime.Runtime.BlockCopy` | ufo-rt/lib/BlocksRuntime/runtime.c:285-326 | A stack Block gets a new heap Block with count 1, needs-free and the same field flags; the Block itself is returned only if it is global or on the heap, NULL only for NULL or a failed allocation. The copy takes exactly the references, and makes exactly the Blocks, of one tree behind the returned pointer, each captured field answered likewise; memory stays well-formed. |
| `BlockRuntime.Runtime.CopyAndRelease` | ufo-rt/lib/BlocksRuntime/runtime.c:453-482 | The copy is as `BlockRuntime.Runtime.BlockCopy` says; after the release everything it made is gone and every earlier cell restored, up to latching and moved byrefs. |
| `BlockRuntime.Runtime.ObjectAssign` | ufo-rt/lib/BlocksRuntime/runtime.c:560-588 | For any captured variable of the kind its flags announce: takes exactly the references, and makes exactly the Blocks, of one tree behind the new pointer, which is what the flags ask for at every depth. |
| `BlockRuntime.Runtime.AssignByref` | ufo-rt/lib/BlocksRuntime/runtime.c:368-411 | The variable has one heap cell with its value, the source forwards to it, one more owner or the first two; nothing else changed. |
| `BlockRuntime.Runtime.BlockRelease` | ufo-rt/lib/BlocksRuntime/runtime.c:459-482 | A heap Block is gone if and only if that was its last reference, else only its count changed; the tree a copy took is dropped exactly and nothing else changes. |
| `BlockRuntime.Runtime.ObjectDispose` | ufo-rt/lib/BlocksRuntime/runtime.c:593-609 | Drops exactly the references of the tree an assign took behind the field and frees exactly the Blocks it made. |
| `BlockRuntime.Runtime.ReleaseByref` | ufo-rt/lib/BlocksRuntime/runtime.c:414-439 | One owner less; the cell is gone if and only if that was the last; a stack variable and a latched count stay. |
| `ByrefCell.ReadsRefine` | ufo-rt/lib/BlocksRuntime/runtime.c:358-411 | Over every run from an invariant state, reads through forwarding equal reads of plain variables. |
| `ByrefCell.EveryReadSeesLastWrite` | ufo-rt/lib/BlocksRuntime/runtime.c:358-439 | From empty memory, every read returns the last value written through any alias. |
| `ByrefCell.AliasesShareOneCell` | ufo-rt/lib/BlocksRuntime/runtime.c:368-411 | Forwarding is idempotent, aliases reach one cell, different variables different cells, each moves at most once. |
| `FakeStackLayout.FlagsTile` | ufo-rt/lib/asan/asan_fake_stack.h:92-100 | Flag ranges of the classes follow each other without gap and end inside the flag area. |
| `FakeStackLayout.FlagsApart` | ufo-rt/lib/asan/asan_fake_stack.h:92-111 | Different frames have different flags. |
| `FakeStackLayout.LocateFinds` | ufo-rt/lib/asan/asan_fake_stack.cc:116-130 | Every address of every frame is mapped back to that frame's bounds, the 32-byte header apart. |
| `FakeStackLayout.LocateIsSound` | ufo-rt/lib/asan/asan_fake_stack.cc:116-130 | Every address of the frame area lies in the frame reported for it; the CHECKs hold. |
| `FakeStackLayout.FramesApart` | ufo-rt/lib/asan/asan_fake_stack.h:114-119 | Frames of all classes are disjoint. |
| `FakeStackLayout.ExpectedFigures` | ufo-rt/lib/asan/tests/asan_fake_stack_test.cc:28-105 | The sizes and frame addresses the unit tests of the fake stack expect. |
| `FakeStack.ScanVisitsOnce` | ufo-rt/lib/asan/asan_fake_stack.cc:96-101 | From any hint, wrap-around included, the scan visits every position exactly once. |
| `FakeStack.AllocateIsExact` | ufo-rt/lib/asan/asan_fake_stack.cc:88-114 | Fails if and only if all frames are taken after collection; otherwise takes one free frame and leaves the rest. |
| `FakeStack.AllocateRotates` | ufo-rt/lib/asan/asan_fake_stack.cc:96-113 | The frame taken is the first free one, counted round from the class's own hint, which is left just behind it. |
| `FakeStack.FramesAreOwned` | ufo-rt/lib/asan/asan_fake_stack.cc:88-217 | After any run of calls, returns and jumps every function on the stack still owns its own frame. |
| `FakeStack.CollectIsExact` | ufo-rt/lib/asan/asan_fake_stack.cc:136-158 | Collection releases exactly the frames below the current real stack and none of a function on the stack. |
| `FakeStack.NoReturnCollects` | ufo-rt/lib/asan/asan_fake_stack.cc:132-158 | The first call after a no-return event releases exactly the frames below its real stack, but for the one it takes. |
| `FakeStack.OnlyOwnFrameMoves` | ufo-rt/lib/asan/asan_fake_stack.cc:202-217 | Without a pending collection only a return releases a frame, and only its own. |
| `FakeStackRuntime.Runtime.constructor` | ufo-rt/lib/asan/asan_fake_stack.cc:45-64 | A new fake stack has no live frame and a clamped size. |
| `FakeStackRuntime.Runtime.GC` | ufo-rt/lib/asan/asan_fake_stack.cc:142-158 | The loop over flags equals the specified collection. |
| `FakeStackRuntime.Runtime.AllocateFrame` | ufo-rt/lib/asan/asan_fake_stack.cc:88-114 | The scanning loop equals the specified allocation. |
| `FakeStackRuntime.Runtime.DeallocateFrame` | ufo-rt/lib/asan/asan_fake_stack.h:125-127 | Clearing the flag through the saved pointer releases exactly that frame. |
| `FakeStackRuntime.Runtime.HandleNoReturn` | ufo-rt/lib/asan/asan_fake_stack.cc:132-134 | Only requests a collection. |
| `FakeStackShadow.SetShadow` | ufo-rt/lib/asan/asan_fake_stack.cc:30-43 | The word-wise fast path equals byte-wise poisoning of the whole frame; the slow path is PoisonShadow. |
| `FakeStackShadow.ShadowStaysInFrame` | ufo-rt/lib/asan/asan_fake_stack.cc:30-43 | Setting the first bytes of a frame's shadow covers them and no other byte of any frame. |
| `FakeStackRuns.OwnFrameIsAddressable` | ufo-rt/lib/asan/asan_fake_stack.cc:202-212 | After any run all memory a function on the stack asked for is addressable. |
| `FakeStackRuns.ReturnedFrameIsMarked` | ufo-rt/lib/asan/asan_fake_stack.cc:214-217 | After any run a frame given back by a return and not taken since is free and reads stack-after-return: all of it in classes 0 to 6, in larger ones what was asked for, with poisoning on. |
| `FakeStackRuns.ReturnedFrameVerdict` | ufo-rt/lib/asan/asan_errors.cc:436-440 | After any run an access that starts in such a frame is stack-use-after-return. |
| `FakeStackRuns.TouchesOwnFrame` | ufo-rt/lib/asan/asan_fake_stack.cc:202-217 | What these two say of a frame changes only by a call that gets it or a return that gives it back. |
| `StackVariables.Print` | ufo-rt/lib/asan/asan_descriptions.cc:396-401 | The loop gives each variable its specified mark. |
| `StackVariables.MarksAreNearest` | ufo-rt/lib/asan/asan_descriptions.cc:225-246 | Marked if and only if overlapped or, with none overlapped, nearest; the one exception stated exactly. |
| `StackVariables.WordingIsRight` | ufo-rt/lib/asan/asan_descriptions.cc:222-243 | The word for a variable: inside, partial overflow and partial underflow exactly when the access lies so; overflows and underflows only past its end or before its start. |
| `StackVariables.AtMostTwoNearest` | ufo-rt/lib/asan/asan_descriptions.cc:225-246 | With none overlapped, two marks are neighbours at equal distance. |
| `StackVariables.TooEarlyExample` | ufo-rt/lib/asan/asan_descriptions.cc:241-246 | A concrete access that shows the exception. |
| `ThreadDescription.AnnouncesOnce` | ufo-rt/lib/asan/asan_descriptions.cc:44-69 | One call announces only new threads, none twice, never the main thread, and its own. |
| `ThreadDescription.AnnouncesChain` | ufo-rt/lib/asan/asan_descriptions.cc:44-69 | One call announces its thread, then each one's creator in turn: only the first without full history, with it up to a thread whose creator is unknown, the main thread or announced. |
| `ThreadDescription.StaysClosed` | ufo-rt/lib/asan/asan_descriptions.cc:63-68 | With full history the announced set stays closed under known creators. |
| `ThreadDescription.SeriesAnnouncesOnce` | ufo-rt/lib/asan/asan_descriptions.cc:44-69 | Over any series of calls each thread is announced at most once. |
| `ThreadDescription.Registry.DescribeThread` | ufo-rt/lib/asan/asan_descriptions.cc:44-69 | The recursion ends on every creator graph, cyclic ones included, and prints exactly the specified announcements. |

## Left out

- User data is not part of memory: a free of a pointer that is no chunk's user pointer reads whatever is there in the source; here it reads zero unless an allocator word is there.
- Frees of pointers that are not 16-aligned, which in the source read a byte inside a header.
- The free stack id, the fill of user memory with malloc and free patterns, and alloc/dealloc and new/delete mismatch reports: they change nothing the properties speak of.
- Reallocate and Calloc: compositions of Allocate and Deallocate with a copy or a clear.
- HeapSafety.AddressableIffAllocated: says nothing of a block that is not sound: mapped while poisoning was off and not handed out since it came on, or handed out and not yet visited after a step on it while poisoning was off.
- Verdict.RightOverflowIsOverflow: leaves out the last granule of a block before memory that is unmapped, the header page of a block that is not lined, or a block that is not sound: the deciding shadow byte there is not known to be a redzone.
- Out-of-memory paths, the RSS limit, the 32-bit and Windows variants.
- Internals of the size-class allocator, the quarantine list, the stack depot and the thread registry: a free raw block is any mapped block not handed out, the quarantine a multiset.
- Internal housekeeping blocks that the sweep may meet.
- Steps of other threads inside one visit, inside the writes of Allocate up to the marking of the chunk, and between the two stores of the redzone options: each of these is one event.
- In RefcountRace a new object gets its captured references in one step, out of those its thread has taken; the copy helper's own increments are that thread's earlier steps.
- In BlockMemory a byref holds a plain value: what its own copy and destroy helpers take and drop is modelled in RefcountRace only.
- Hardware memory order: steps are sequentially consistent.
- GC mode of the Blocks runtime, the dump routines, and the failure of the byref allocation, which the source does not check.
- Signal re-entrancy of the fake stack and PoisonAll.
- Scores, report text and the far-from-bounds bonus of the verdict.
- User poisoning, alloca poisoning, globals and debugging entry points: they rest on other helpers or add easy members.
