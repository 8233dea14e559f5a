# A model of CHERI test software, and its proofs

The repository holds the test suite of a capability processor.  This project models the parts of it in which
something can go subtly wrong, and proves what they are for.

**The tag-carrying block copy** (`cheri-c-tests/clang-hybrid/memcpy.c`).  One body implements `memcpy`, `memmove` and
`bcopy` on memory that has, beside its bytes, one validity tag for every capability-sized granule.  A byte or word
store clears the tag of the granule it touches; an aligned capability load or store carries it.  The copy runs
upwards or downwards, in four phases each, by loops whose index wraps around modulo 2^64 and that stop on `!=`.
`TaggedMemory` is the memory with its bounds and alignment checks, `CopyLoop` the copy loop, `BlockCopy` the
phases and the copy itself, and `CopyProperties` says what its result means.  The main results: for every
length, alignment and overlap, the bytes and the tags afterwards are exactly those of a move made all at once
(`BlockCopy.BlockCopy`); no access faults; and no capability is forged (`CopyProperties.NoForgery`).

**The DMA fuzz pipeline** (`fuzz_dma/`).  A seed makes a random tree of loops, sequences and operations; the tree is
written out as flat SET, LOOP, ADD, TRANSFER and STOP instructions; the transfers are listed; source and destination
regions are laid out in memory; and a test program runs up to any number of threads, in an order nobody controls,
and then asserts that the right bytes have arrived.

- `Rand`, `ProgramTree`, `TreeBuilder`: the generator of trees, which fills a chain of open slots breadth first.  It
  terminates for every seed, with at most 26 instructions (`TreeBuilder.SeedLimit`), because no three draws in a row
  are zero (`Rand.NoThreeZeros`).
- `DmaMachine`, `LoopRegisters`, `TransferLists`: the instructions, a compiler from loop programs to flat code
  with its correctness proof (`DmaMachine.ProgramRuns`), and what every transfer list looks like.
- `ProgramWriter`, `Generation`: the code writer with its cursor into a buffer, and the programs of a test.  `Seeds`,
  `DeepSeed`, `LongSeed`, `PageSeed`: particular seeds that show where the generator goes wrong.
- `Ranges`, `Interleaving`, `Rounds`: threads that share a memory, and the theorems about every order of their
  instructions (`Interleaving.AnyInterleaving`, `Interleaving.ThreadStops`).
- `PhysicalLayout`, `LayoutBounds`, `MultithreadTest`, `Scheduler`, `TestRuns`: the layout on real addresses, why the
  printed asserts hold, the test program's loop, and the whole pipeline from seed to outcome
  (`TestRuns.GenerateAndRun`).  `SingleTest`: the same for the single-thread test (`SingleTest.GenerateAndRunAlone`).
- `PageChoice`, `VirtualLayout`, `TranslatedRuns`, `VirtualTest`: the random choice of pages, the TLB, the refinement of runs
  through the TLB to runs on physical addresses, and the pipeline on virtual addresses
  (`VirtualTest.GenerateAndRunVirtual`).

**Two smaller companions.**  `Shrinker` is the greedy test shrinker of `fuzz_cap.py`.  `RegisterDump` is the pair of
`gxemultosim.c`, which prints a register dump, and `tools/sim/__init__.py`, which parses it; `Regex` is what its patterns
mean, and `LogLines` what the parser makes of the other lines of a log.

## What the code does not do

Six properties that one would expect, or that a comment claims, are false of the code.  The model keeps the code as it
is, shows an input for each, and says exactly when the property holds.

- The program writer asserts that at most four loops are around one another, and the tree builder does not keep to
  that.  Seed 4501 makes five of them (`DeepSeed.SeedNestsFiveDeep`), so the assertion at
  `fuzz_dma/dma_test_generation.c:264` fails (`DeepSeed.WriterRefusesSeed`).  The writer succeeds if and only if the nesting
  is at most four (`ProgramWriter.WriteProgram`).  There are at most six loops (`TreeBuilder.FinishedLimits`).
- The program length can exceed 23 (`fuzz_dma/dma_test_generation.c:132-134` says "around 23"): seed 470473056 makes 24
  instructions, drawing one zero (`LongSeed.SeedIsLong`).  A length of at most 23 is certain if and only if no draw is zero
  (`LongSeed.LimitNeedsNonzeroDraws`).  In each case the length is exactly what was written or open when it came to
  the limit of 12, plus the zeros drawn at 12 (`TreeBuilder.FinishedLimits`); the former is at most 23, or 24 when a
  zero was drawn with all ten slots open.
- `shrink` returns the empty test, which usually does not fail, when no single instruction of the failing test can be left
  out (`Shrinker.ShrunkFails`, `Shrinker.ShrinkLosesFailure`).
- Only the first page of a run of virtual or physical pages is checked against the pages in use.  Test seed 13988 with one
  thread makes a program that needs two double pages on each side, and draws of pages 0x8001 and 0x8000 put page
  0x8001 in use twice (`PageSeed.PagesCollide`).  When the engine's range has room for all the pages needed, they are
  distinct for all draws in the range if and only if no thread takes a second page (`PageChoice.AlwaysDistinct`), that is, if
  and only if the transfers of every thread end before the last byte of its first double page is used
  (`VirtualLayout.OnePageEach`); a thread that just fills its page takes another one.  When the pages happen to be distinct,
  the test is right for threads of any size (`VirtualTest.GenerateAndRunVirtual`).
- A region copied onto itself is left alone altogether.  Treating it like other copies would clear the tags of granules it
  only partly covers (`CopyProperties.HalfGranuleLosesTag`); the two agree if and only if no tagged granule straddles an
  end of the region (`CopyProperties.CopyOntoItself`).
- The scheduler draws a thread modulo the number of active threads even after the last one is removed
  (`fuzz_dma/multithread_test_template.c:106-109`), which is a remainder modulo zero.  One thread that is ready at its
  first check is enough (`Scheduler.OneReadyThread`).  It happens if and only if the loop comes to its end.  In terms of
  the answers alone: once these have settled for a round per thread, it happens if and only if every thread is ready
  then; it never happens if some thread is never ready (all in `Scheduler.Test`).  A generated test that is given enough
  turns and then a round per thread always does it (`TestRuns.GenerateAndRun`).  What follows holds if the processor
  then goes on.

## Assumptions

- `DMAModel.h` and `DMAAsm.h` are not part of this model.  TRANSFER moves `1 << size` bytes and advances both
  pointers by as much, as the unit tests at `fuzz_dma/generate_dma_test.c:169-187` show; ADD advances both pointers,
  the source or the destination for targets 0, 1 and 2 (`fuzz_dma/humanise_test.py:42-47`); LOOP r, k jumps back k
  instructions and counts down until the counter has come to a floor.  The floor is a parameter, so the number of repeats is
  left open, and every theorem holds whatever it is, except that `PageSeed` takes a loop with counter v to run v or
  v + 1 times.  A LOOP or SET with a register beyond the four, a jump
  before the start and running off the end fault; no generated program does any of these.
- The three draws for an ADD are made target first, then amount; C leaves the order open when they are function arguments.
- A transfer is one instruction and is made at once; threads are interleaved instruction by instruction.
- The low bits of an address are modelled as its distance from the boundary below, and shifts of page numbers as products.
- DMA addresses are natural numbers; `LayoutBounds.AddressesFit` shows that layouts on real addresses stay below 2^64.
- Random engines of the C++ library are finite streams of arbitrary page numbers; a layout that uses up its stream has no
  result.
- The DMA threads of a virtual test and the TLB meet in `TranslatedRuns`: a transfer to an address without an entry faults,
  and the first of several matching entries is used.
- The shrinker's "emit, compile and run" is a function from a test to whether it fails.
- `int(text, 16)` is modelled for hexadecimal digits; anything else raises an exception.  Python would also accept a sign,
  surrounding blanks and underscores, which no dump contains.  Spaces, digits and letters in patterns are those of ASCII.
- The build without capability registers (`Plain`) copies 8-byte integers in its third phase; memory has no tags there, and
  `BlockCopy.BlockCopy` says nothing of them.

## Model

| member | source | states |
|---|---|---|
| `TaggedMemory.WrapIsModulo` | cheri-c-tests/clang-hybrid/memcpy.c:144 | size_t arithmetic is arithmetic modulo 2^64, for any one addition, subtraction or negation |
| `TaggedMemory.LowBits` | cheri-c-tests/clang-hybrid/memcpy.c:68-71 | masking with the size less one gives the distance from the aligned boundary below |
| `TaggedMemory.WholeUnits` | cheri-c-tests/clang-hybrid/memcpy.c:201 | length / sizeof is the number of whole units, and the remainder is what masking gives |
| `TaggedMemory.Access.InOneGranule` | cheri-c-tests/clang-hybrid/memcpy.c:190-214 | an aligned word or capability access never crosses the end of its granule, so one tag is concerned |
| `TaggedMemory.Memory.Load` | cheri-c-tests/clang-hybrid/memcpy.c:207-214 | only an aligned access inside the bounds is allowed; only a capability load sees the tag of its granule |
| `TaggedMemory.Memory.Store` | cheri-c-tests/clang-hybrid/memcpy.c:207-214 | the bytes written are the value and no others; the one granule touched takes the tag of a capability store and loses its tag to a byte or word store; all other tags stay |
| `CopyLoop.MoveThenUp` | cheri-c-tests/clang-hybrid/memcpy.c:74-84 | a move made from below in two parts is one move, when the destination is not above an overlapping source |
| `CopyLoop.MoveThenDown` | cheri-c-tests/clang-hybrid/memcpy.c:74-84 | the same from above, when the destination is not below an overlapping source |
| `CopyLoop.TagsThenUp` | cheri-c-tests/clang-hybrid/memcpy.c:74-84 | going up, an earlier store never changes the tag of a source granule still to be read |
| `CopyLoop.TagsThenDown` | cheri-c-tests/clang-hybrid/memcpy.c:74-84 | going down, an earlier store never changes the tag of a source granule still to be read |
| `CopyLoop.OriginStarts` | cheri-c-tests/clang-hybrid/memcpy.c:201-216 | when the regions agree modulo a capability, the start of a destination granule came from the start of a source granule |
| `CopyLoop.CopyElement` | cheri-c-tests/clang-hybrid/memcpy.c:170 | one element moves its bytes, and gives the destination granule the tag of the source granule for a capability, and none otherwise |
| `CopyLoop.AtTurn` | cheri-c-tests/clang-hybrid/memcpy.c:76-83 | with the index modulo 2^64, each turn is at the next element, aligned and in bounds, and the index equals its last value exactly when the chunk is done |
| `CopyLoop.Step` | cheri-c-tests/clang-hybrid/memcpy.c:77-83 | one turn of the loop extends the bytes moved by exactly one element |
| `CopyLoop.MipsLoop` | cheri-c-tests/clang-hybrid/memcpy.c:74-84 | the loop ends after exactly as many turns as there are elements in the chunk; the chunk has moved as if all at once, for each kind of access and either direction |
| `BlockCopy.BetweenBoundaries` | cheri-c-tests/clang-hybrid/memcpy.c:201-216 | between two capability boundaries a granule is either wholly inside or untouched |
| `BlockCopy.ClearToBoundary` | cheri-c-tests/clang-hybrid/memcpy.c:156-185 | aligning by bytes or words does not pass over a granule that has to keep its tag |
| `BlockCopy.CapChunk` | cheri-c-tests/clang-hybrid/memcpy.c:198-216 | the capability loop gives every granule of its chunk the tag that memmove promises |
| `BlockCopy.PlainChunk` | cheri-c-tests/clang-hybrid/memcpy.c:156-197 | the byte and word loops give every granule of their chunk the tag that memmove promises |
| `BlockCopy.ForwardFits` | cheri-c-tests/clang-hybrid/memcpy.c:166-170 | a negative index from minus the chunk's length visits exactly the chunk behind the pointers |
| `BlockCopy.BackwardFits` | cheri-c-tests/clang-hybrid/memcpy.c:238-242 | an index from the last element down to zero visits exactly the chunk before the pointers |
| `BlockCopy.ForwardBytes` | cheri-c-tests/clang-hybrid/memcpy.c:156-171 | afterwards both pointers are word-aligned or nothing is left, and no granule that has to keep its tag was passed |
| `BlockCopy.ForwardWordCount` | cheri-c-tests/clang-hybrid/memcpy.c:175-185 | the words chosen fit in what is left; then less than a capability is left or both pointers are capability-aligned |
| `BlockCopy.ForwardWords` | cheri-c-tests/clang-hybrid/memcpy.c:172-197 | the copy has advanced by those words, with the same guarantee |
| `BlockCopy.ForwardCapabilities` | cheri-c-tests/clang-hybrid/memcpy.c:198-216 | all whole capabilities are moved with their tags, and the rest holds none |
| `BlockCopy.ForwardTail` | cheri-c-tests/clang-hybrid/memcpy.c:217-223 | the copy has reached the end |
| `BlockCopy.BackwardBytes` | cheri-c-tests/clang-hybrid/memcpy.c:230-243 | the same as ForwardBytes, downwards, with the other comparison with the word size |
| `BlockCopy.BackwardWordCount` | cheri-c-tests/clang-hybrid/memcpy.c:244-250 | the same as ForwardWordCount, downwards |
| `BlockCopy.BackwardWords` | cheri-c-tests/clang-hybrid/memcpy.c:244-262 | the same as ForwardWords, downwards |
| `BlockCopy.BackwardCapabilities` | cheri-c-tests/clang-hybrid/memcpy.c:263-279 | the same as ForwardCapabilities, downwards |
| `BlockCopy.BackwardTail` | cheri-c-tests/clang-hybrid/memcpy.c:280-286 | the copy has reached the start |
| `BlockCopy.BlockCopy` | cheri-c-tests/clang-hybrid/memcpy.c:128-294 | every destination byte is the original source byte and no other byte changes; a granule wholly in the destination takes the old tag of its source granule when the regions agree modulo a capability, every other granule touched loses its tag, untouched ones keep theirs (in builds with capabilities); nothing changes when source and destination are the same; the destination is returned |
| `CopyProperties.NoForgery` | cheri-c-tests/clang-hybrid/memcpy.c:128-294 | a granule tagged after a copy holds byte for byte what some tagged granule held before |
| `CopyProperties.SaveAndRestore` | cheri-c-tests/clang-hybrid/memcpy.c:128-294 | copying a region away and back restores its bytes, and the tags of all granules wholly inside, when the regions agree modulo a capability |
| `CopyProperties.HalfGranuleLosesTag` | cheri-c-tests/clang-hybrid/memcpy.c:129-130 | the first half of a tagged granule, copied onto itself like any other region, would lose the tag |
| `CopyProperties.CopyOntoItself` | cheri-c-tests/clang-hybrid/memcpy.c:129-130 | leaving a copy onto itself alone equals copying it if and only if no tagged granule straddles an end of the region |
| `Rand.Rng.MyRand` | fuzz_dma/dma_test_generation.c:36-39 | the next state and draw of the generator, with a 64-bit state and a 32-bit cast |
| `Rand.NoThreeZeros` | fuzz_dma/dma_test_generation.c:36-39 | no three draws in a row are zero, from any state |
| `Rand.SomeDrawIsNonzero` | fuzz_dma/dma_test_generation.c:36-39 | from every state, one of any three consecutive draws is not zero, so the tree builder cannot wait for ever |
| `ProgramTree.LevelOrderCounts` | fuzz_dma/dma_test_generation.c:240-252 | program length and number of loops, counted recursively, are the sums over the tree's level order |
| `ProgramTree.TreeOfLevelOrder` | fuzz_dma/dma_test_generation.c:136-191 | a complete sequence of choices is the level order of the tree it builds, and its counts are the tree's |
| `ProgramTree.LevelOrderInjective` | fuzz_dma/dma_test_generation.c:136-191 | a level order determines its trees |
| `ProgramTree.NestingWithinLoops` | fuzz_dma/dma_test_generation.c:128-131 | the nesting of a tree is at most its number of loops |
| `TreeBuilder.ChoiceRegimes` | fuzz_dma/dma_test_generation.c:157-189 | beyond the length limit only operations are chosen, at the limit a sequence only for a draw of zero, and below it no sequence when too many slots are open |
| `TreeBuilder.Limits` | fuzz_dma/dma_test_generation.c:142-191 | for every stream of draws, at every moment: at most 10 open slots and at most 23 for length plus open slots from the limit on, each raised by 1 if a zero was drawn early with ten slots open and by 1 for every zero drawn at length 12; at most 6 loops |
| `TreeBuilder.LengthAccount` | fuzz_dma/dma_test_generation.c:157-189 | length plus open slots is exactly what it was when the length first came to 12, plus the zeros drawn at length 12 |
| `TreeBuilder.FinishedLimits` | fuzz_dma/dma_test_generation.c:132-134 | a finished program's length is exactly that sum, hence at most 23 plus those zeros, and it has at most 6 loops |
| `TreeBuilder.LateZerosInARow` | fuzz_dma/dma_test_generation.c:157-189 | zeros drawn at length 12 are drawn one right after the other |
| `TreeBuilder.SeedLimit` | fuzz_dma/dma_test_generation.c:116-194 | whatever the seed, the program has at most 26 instructions |
| `TreeBuilder.StreamLimit` | fuzz_dma/dma_test_generation.c:142-191 | for every stream of draws, of this generator or not, the builder makes at most 45 nodes and two more for every zero, so it terminates for every stream with finitely many zeros |
| `LongSeed.SeedIsLong` | fuzz_dma/dma_test_generation.c:132-134 | seed 470473056 makes a program of 24 instructions, drawing one zero |
| `LongSeed.LimitNeedsNonzeroDraws` | fuzz_dma/dma_test_generation.c:132-134 | all streams with at most z zeros give at most 23 instructions if and only if z is 0 |
| `TreeBuilder.ChainHoldsTree` | fuzz_dma/dma_test_generation.c:136-191 | when every slot is filled, the linked nodes are exactly the tree that the choices describe |
| `TreeBuilder.FillNext` | fuzz_dma/dma_test_generation.c:162-190 | filling a slot keeps the chain: every node is linked to the next one, filled ones to their children, and the next space is the first unfilled node |
| `TreeBuilder.Pick` | fuzz_dma/dma_test_generation.c:157-188 | the choice follows the draw, and the wait for a draw that is not zero gets shorter |
| `TreeBuilder.RandomStructure` | fuzz_dma/dma_test_generation.c:116-194 | the builder terminates for every seed; the nodes from the root are the tree of the choices it drew |
| `DmaMachine.CodeRuns` | fuzz_dma/dma_test_generation.c:259-294 | placed anywhere in a program, the code for a loop program has its meaning as its effect, ends after its last instruction, and leaves the counters of enclosing loops alone |
| `DmaMachine.LoopRuns` | fuzz_dma/dma_test_generation.c:268-276 | a loop is its body repeated, whatever the counter holds |
| `DmaMachine.ProgramRuns` | fuzz_dma/dma_test_generation.c:296-313 | the flat code with its STOP stops and makes exactly the transfers the loop program means, for every nesting up to four |
| `DmaMachine.ExecAdds` | fuzz_dma/dma_test_generation.c:76-81 | executing m + n instructions is executing m and then n |
| `DmaMachine.HaltedStays` | fuzz_dma/dma_test_generation.c:76-81 | a thread that has halted makes no more transfers |
| `LoopRegisters.EmittedIsSound` | fuzz_dma/dma_test_generation.c:123-125 | every LOOP jumps to the instruction after the SET of its own counter, no instruction between sets that counter, and the registers of each part are those of its depth |
| `LoopRegisters.TooDeepSetsMissing` | fuzz_dma/dma_test_generation.c:128-131 | code with more nested loops than registers sets a register that does not exist |
| `TransferLists.NeverOverwrites` | fuzz_dma/dma_test_generation.c:254-258 | source ranges are strictly ascending and disjoint, and so are destination ranges, between where the program starts and where it ends |
| `TransferLists.StaysAligned` | fuzz_dma/dma_test_generation.c:283-290 | every transfer of a generated program is aligned to its size |
| `TransferLists.StaysInReach` | fuzz_dma/dma_test_generation.c:259-294 | neither pointer moves by more than 6 to the nesting times 608 bytes an instruction |
| `TransferLists.StaysBelowGap` | fuzz_dma/test_template.c:32-33 | programs of up to 340 instructions keep both pointers below the gap between the two buffers |
| `TransferLists.Relocates` | fuzz_dma/dma_test_generation.c:71-73 | starting elsewhere moves every transfer by as much, so offsets from zero are enough |
| `ProgramWriter.ProgramLength` | fuzz_dma/dma_test_generation.c:240-252 | the length computed from the linked nodes is the number of instructions of the tree |
| `ProgramWriter.WriteOperation` | fuzz_dma/dma_test_generation.c:283-292 | exactly the next slot is filled; executed anywhere, the instruction makes one transfer of the drawn size if the first draw is even, and otherwise moves the source on by the drawn amount unless the target draw leaves 2 modulo 3, and the destination unless it leaves 1 |
| `ProgramWriter.OperationMoves` | fuzz_dma/dma_test_generation.c:283-290 | what one step of the machine does with the instruction for an operation, in terms of the draws alone |
| `ProgramWriter.OperationMeans` | fuzz_dma/dma_test_generation.c:283-290 | the same for the meaning of the operation in a loop program |
| `ProgramWriter.WriteProgram` | fuzz_dma/dma_test_generation.c:259-294 | the assertion holds throughout if and only if level plus nesting is at most 4; then exactly the slots for the tree's length are filled, with the code of the drawn loop program, and the cursor is after them |
| `ProgramWriter.WriteWhole` | fuzz_dma/dma_test_generation.c:303-308 | the buffer has the length of the program and its STOP, and is filled exactly |
| `ProgramWriter.GenerateProgram` | fuzz_dma/dma_test_generation.c:297-313 | for every seed: the program is the code of a loop program with one STOP, has at most 27 instructions with it, and is written if and only if its nesting is at most 4 |
| `ProgramWriter.ListTransfers` | fuzz_dma/dma_test_generation.c:60-87 | the loop terminates, and the list is exactly the transfers of the loop program's own meaning from address zero |
| `DeepSeed.SeedNestsFiveDeep` | fuzz_dma/dma_test_generation.c:128-130 | from seed 4501 the builder makes a tree with five loops around one another |
| `Seeds.OneTreeForASeed` | fuzz_dma/dma_test_generation.c:119-120 | a seed determines the choices, so test sequences are reproducible |
| `DeepSeed.WriterRefusesSeed` | fuzz_dma/dma_test_generation.c:264 | whatever program is made of seed 4501, its nesting is 5, so the assertion fails |
| `Ranges.CellsDistinct` | fuzz_dma/generate_multithread_dma_test.cpp:395-404 | when ranges do not overlap, no address is written twice |
| `Ranges.CellOf` | fuzz_dma/generate_multithread_dma_test.cpp:395-425 | the n-th write and the n-th assert are about the same byte of the same transfer |
| `Ranges.CellAt` | fuzz_dma/generate_multithread_dma_test.cpp:395-404 | the bytes of each transfer are numbered in order, after those of all transfers before it |
| `Ranges.SourcesNumbered` | fuzz_dma/generate_multithread_dma_test.cpp:395-404 | after the writes, the n-th source byte is n modulo 256 and every other address is as it was |
| `Ranges.NumbersArrive` | fuzz_dma/generate_multithread_dma_test.cpp:395-425 | when every destination byte is what its source byte was, numbers modulo 256 written to the sources satisfy every assert |
| `Interleaving.TransfersApart` | fuzz_dma/generate_multithread_dma_test.cpp:380-426 | no transfer of any thread writes where another one reads or writes |
| `Interleaving.MadeIsPrefix` | fuzz_dma/multithread_test_template.c:78-110 | whatever a thread has done so far, its transfers are a prefix of its list, and all of it once it has stopped |
| `Interleaving.TurnKeeps` | fuzz_dma/multithread_test_template.c:78-110 | one instruction of any thread keeps memory consistent: bytes are as at first but for finished transfers, which hold what their sources held at first |
| `Interleaving.RunKeeps` | fuzz_dma/multithread_test_template.c:78-110 | memory is consistent after every schedule |
| `Interleaving.AnyInterleaving` | fuzz_dma/multithread_test_template.c:78-112 | for any number of threads and any order of their instructions, once all have stopped every destination holds what its source held at first |
| `Interleaving.NeverFaults` | fuzz_dma/multithread_test_template.c:78-110 | no thread faults in any order of instructions |
| `Interleaving.ThreadStops` | fuzz_dma/multithread_test_template.c:78-110 | a thread that has had as many turns as it needs alone has stopped, whatever the others did in between |
| `Interleaving.SomeOrderStops` | fuzz_dma/multithread_test_template.c:78-110 | some order of instructions stops all threads |
| `MultithreadTest.EveryThreadStops` | fuzz_dma/multithread_test_template.c:78-110 | all threads have stopped once each has had one turn more than its loop program has steps, in any order |
| `PhysicalLayout.NextAlignedIsLeast` | fuzz_dma/generate_multithread_dma_test.cpp:113-119 | next_aligned is the least multiple of the width at or above the address |
| `PhysicalLayout.ProgramRises` | fuzz_dma/generate_multithread_dma_test.cpp:395-398 | within a thread's region its transfers follow one another on either side |
| `PhysicalLayout.VisitThread` | fuzz_dma/generate_multithread_dma_test.cpp:395-404 | one write for every byte of every transfer in order, numbered on modulo 256, and the position is after the last transfer |
| `PhysicalLayout.LaidOutNext` | fuzz_dma/generate_multithread_dma_test.cpp:387-405 | placing one more thread keeps all regions disjoint and in order |
| `PhysicalLayout.LayOut` | fuzz_dma/generate_multithread_dma_test.cpp:384-405 | all regions are disjoint and in order, and each starts at the least multiple of its transfer size after the regions before it |
| `PhysicalLayout.RangesOfAll` | fuzz_dma/generate_multithread_dma_test.cpp:395-425 | the ranges laid out are those of the threads' transfers from their base addresses |
| `PhysicalLayout.ProgramAligned` | fuzz_dma/dma_test_generation.c:283-290 | the transfers of a generated program are of one size and aligned to it, relative to their start |
| `PhysicalLayout.LayoutInPlace` | fuzz_dma/generate_multithread_dma_test.cpp:380-426 | every source and destination address of every transfer in the layout is a multiple of the transfer's width |
| `PhysicalLayout.PrintTestInformation` | fuzz_dma/generate_multithread_dma_test.cpp:358-443 | sources and destinations of all threads are pairwise disjoint, every base is the least aligned address after the regions before it, and every transfer address is aligned when the lists are; the writes number every source byte and the asserts expect the same numbers in the destinations |
| `MultithreadTest.SetupIsValid` | fuzz_dma/multithread_test_template.c:61-76 | each thread started on its program and region makes, on its own, exactly the transfers listed for it |
| `MultithreadTest.AssertsHold` | fuzz_dma/multithread_test_template.c:59-112 | for every layout that keeps regions disjoint and every order of instructions, no thread faults, and once all threads have stopped every assert holds |
| `MultithreadTest.SetupPasses` | fuzz_dma/multithread_test_template.c:59-112 | the same for any programs that stop and whose transfers are disjoint |
| `Rounds.StoppedSince` | fuzz_dma/multithread_test_template.c:78-110 | a thread that has stopped by some round has stopped for good |
| `Scheduler.SwapRemove` | fuzz_dma/multithread_test_template.c:100-104 | copying the last active thread over one of them removes exactly that one |
| `Scheduler.ActiveNext` | fuzz_dma/multithread_test_template.c:100-104 | after every check the active threads are distinct and are exactly those not yet seen ready |
| `Scheduler.OrderIsActive` | fuzz_dma/multithread_test_template.c:100-104 | the order computed from the checks alone lists, without repetition, exactly the threads not yet seen ready, as many as have not been found ready |
| `Scheduler.CheckReady` | fuzz_dma/multithread_test_template.c:96-104 | the check of the third thread keeps that account, and one thread fewer is active exactly when the check found it ready |
| `Scheduler.PickThreads` | fuzz_dma/multithread_test_template.c:106-109 | the indices are the next three draws modulo the number of active threads, and each thread is the active one at its index; with none left the first remainder is modulo zero |
| `Scheduler.SeenMeansReady` | fuzz_dma/multithread_test_template.c:100 | a thread counts as ready only if a check of it found it so |
| `Scheduler.FoundFrom` | fuzz_dma/multithread_test_template.c:96-104 | once all threads are ready, every further round finds its thread ready |
| `Scheduler.DoneOnceSettled` | fuzz_dma/multithread_test_template.c:88-110 | once the answers have settled for a round per thread, the loop has come to its end if and only if every thread is ready then |
| `Scheduler.SeedDeterminesRun` | fuzz_dma/multithread_test_template.c:78-110 | the seed and the answers determine the whole run |
| `Scheduler.Test` | fuzz_dma/multithread_test_template.c:51-110 | for all seeds and all answers to the readiness checks: the threads of round r are the active ones at the indices given by the draws 4r + 1 to 4r + 3 modulo their number, the active threads being in the order that dropping the ready ones leaves; only threads not yet seen ready are switched to; the loop comes to its end if and only if every thread has been seen ready, and a remainder modulo zero is taken if and only if it comes to its end; it does so if all threads are ready from some round on that leaves a round per thread, and not if some thread is never ready |
| `Scheduler.OneReadyThread` | fuzz_dma/multithread_test_template.c:106-109 | with one thread that is ready at its first check, a remainder modulo zero is taken |
| `TestRuns.AllSeenStopped` | fuzz_dma/multithread_test_template.c:78-112 | once every thread has been seen ready, all have stopped when the asserts are reached |
| `TestRuns.EnoughIsReady` | fuzz_dma/multithread_test_template.c:78-110 | once every thread has had one turn more than its loop program has steps, in any order, every check finds its thread ready |
| `TestRuns.MultithreadedTest` | fuzz_dma/multithread_test_template.c:51-112 | every thread is started at program counter 0 with its counters, at the base addresses of the layout from DRAM_START; the source bytes are numbered and the rest of memory is as it was; the asserts expect those numbers in the destinations.  From there: no thread faults; the loop, run on its seed, comes to its end if and only if every thread has been seen ready, and then all asserts hold; it does come to its end when all threads have had enough turns and a round per thread is left |
| `Generation.GenerateThreads` | fuzz_dma/generate_multithread_dma_test.cpp:121-137 | each program is made from a seed drawn after the program before it; all are made if and only if none nests loops too deeply, and the lists are those of their own meanings |
| `Generation.MadeFacts` | fuzz_dma/dma_test_generation.c:297-313 | whatever the seed, every program has at most 26 instructions, counters up to 5 and steps of less than 20 elements |
| `TestRuns.GenerateAndRun` | fuzz_dma/generate_multithread_dma_test.cpp:358-443 | from any seed and number of threads: a test is made if and only if no program nests too deeply; it begins with all threads started at the layout's addresses and the source bytes numbered; no thread faults, and when the test, run on the same seed, comes to its end it passes, whatever the order of instructions; it comes to its end, and so passes, if it is given enough turns and then a round per thread |
| `LayoutBounds.LayoutFits` | fuzz_dma/generate_multithread_dma_test.cpp:380-426 | a layout takes at most the gap and an alignment for each thread whose region fits the gap |
| `LayoutBounds.GeneratedFits` | fuzz_dma/dma_test_generation.c:259-294 | the region of every generated thread fits the gap |
| `LayoutBounds.AddressesFit` | fuzz_dma/generate_multithread_dma_test.cpp:380-426 | for every seed and up to 2^32 threads, all addresses of the layout are below 2^64 |
| `SingleTest.PrintSingleTest` | fuzz_dma/generate_dma_test.c:60-90 | the writes number the source bytes of every transfer modulo 256, and the asserts expect them in the destinations |
| `SingleTest.SingleIsSeparate` | fuzz_dma/test_template.c:32-33 | the source and destination ranges of a single-thread test are disjoint |
| `SingleTest.SingleInPlace` | fuzz_dma/test_template.c:32-33 | every transfer address of a single-thread test is aligned |
| `SingleTest.SingleTestPasses` | fuzz_dma/test_template.c:39-59 | the thread does not fault, stops after one turn more than its loop program has steps, and every printed assert holds once it has stopped |
| `SingleTest.WaitUntilReady` | fuzz_dma/test_template.c:47-54 | the loop ends at the first check that finds the thread ready, after exactly the waits before it |
| `SingleTest.GenerateAndRunAlone` | fuzz_dma/generate_dma_test.c:37-91 | for every seed: a test is made if and only if its program does not nest too deeply; it begins with the thread started and the source bytes numbered, and the outcome is that of as many instructions as were executed up to the first check that finds the thread ready; it is done if it is given enough time, and then passes |
| `PageChoice.InVector` | fuzz_dma/generate_multithread_dma_test.cpp:172-182 | true if and only if the page is among those given |
| `PageChoice.FirstFreeIsFirst` | fuzz_dma/generate_multithread_dma_test.cpp:254-256 | the chosen draw is not in use, and all draws before it are |
| `PageChoice.TakeRun` | fuzz_dma/generate_multithread_dma_test.cpp:254-260 | the page is the first drawn that is not in use, and exactly its run is added to the pages in use; it fails exactly when there is none |
| `PageChoice.ChoosePages` | fuzz_dma/generate_multithread_dma_test.cpp:238-287 | each run of each thread starts at the first free draw, in physical and virtual memory independently, and the pages in use are all their pages in order |
| `PageChoice.TooFewPages` | fuzz_dma/generate_multithread_dma_test.cpp:254-285 | an engine that runs out yields fewer different pages than the threads need |
| `PageChoice.ChoiceAllowed` | fuzz_dma/generate_multithread_dma_test.cpp:254-285 | the first page of every run was not in use when it was chosen |
| `PageChoice.AllowedChosen` | fuzz_dma/generate_multithread_dma_test.cpp:254-285 | any runs whose first pages are free are chosen for some draws |
| `PageChoice.AlwaysDistinct` | fuzz_dma/generate_multithread_dma_test.cpp:254-285 | for a range of pages with room for all that are needed: the pages in use are distinct for all draws in the range, if and only if no thread needs a second page |
| `PageSeed.PageProgram` | fuzz_dma/dma_test_generation.c:297-313 | the one program that seed 30613 makes |
| `PageSeed.NeedsTwoPages` | fuzz_dma/generate_multithread_dma_test.cpp:239-252 | it needs more than one double page |
| `PageSeed.PagesCollide` | fuzz_dma/generate_multithread_dma_test.cpp:254-268 | from test seed 13988, a possible choice of physical pages uses page 0x8001 twice |
| `VirtualLayout.PrintMappings` | fuzz_dma/generate_multithread_dma_test.cpp:292-296 | one mapping for every page in use, from its pair of virtual pages to its pair of physical ones |
| `VirtualLayout.PageTranslates` | fuzz_dma/mips_tlb.h:31-53 | some entry matches every address of a page in use, and whichever does gives the same offset in the physical page |
| `VirtualLayout.RunInUse` | fuzz_dma/generate_multithread_dma_test.cpp:257-286 | where each page of each run is in the list of pages in use |
| `VirtualLayout.ThreadTranslates` | fuzz_dma/generate_multithread_dma_test.cpp:292-337 | when no virtual page is in use twice, every address of a thread's runs is translated to the physical address that the writes and asserts use |
| `VirtualLayout.ThreadStaysInRun` | fuzz_dma/generate_multithread_dma_test.cpp:239-252 | all transfers of a thread lie within the pages computed for it |
| `VirtualLayout.PagesTaken` | fuzz_dma/generate_multithread_dma_test.cpp:239-252 | the number of double pages beyond the first is the one for which the transfers end before the room is used up on both sides, and not before the last double page on some side |
| `VirtualLayout.OnePageEach` | fuzz_dma/generate_multithread_dma_test.cpp:239-252 | no thread takes a second page if and only if the transfers of every thread end, on both sides, before the end of the first double page |
| `VirtualLayout.VirtualIsSeparate` | fuzz_dma/generate_multithread_dma_test.cpp:298-329 | when no physical page is in use twice, the physical ranges of all threads are pairwise disjoint |
| `VirtualLayout.PrintVirtualisedTestInformation` | fuzz_dma/generate_multithread_dma_test.cpp:197-356 | mappings cover the chosen pages, writes and asserts number the same bytes, and ranges are disjoint when no physical page is in use twice; it succeeds whenever the engines yield as many different pages as are needed |
| `TranslatedRuns.SideTranslates` | fuzz_dma/generate_multithread_dma_test.cpp:292-337 | every byte of every transfer of a thread is mapped, to consecutive addresses of its physical region |
| `TranslatedRuns.TurnsAlike` | fuzz_dma/multithread_test_template.c:78-110 | one instruction through the TLB does to memory what it does on physical addresses |
| `TranslatedRuns.RunsAlike` | fuzz_dma/multithread_test_template.c:78-110 | in every order of instructions, runs through the TLB hold the same memory and have their threads at the same places as runs on physical addresses |
| `TranslatedRuns.ThroughNeverFaults` | fuzz_dma/multithread_test_template.c:78-110 | no thread faults, on a missing mapping or otherwise |
| `TranslatedRuns.VirtualThreadsStop` | fuzz_dma/multithread_test_template.c:78-110 | all threads have stopped once each has had one turn more than its loop program has steps, through the TLB as well |
| `TranslatedRuns.VirtualTestPasses` | fuzz_dma/generate_multithread_dma_test.cpp:95-106 | when no page is in use twice: no thread faults, and once all threads on virtual addresses have stopped, every assert on physical memory holds |
| `VirtualTest.VirtualInPlace` | fuzz_dma/generate_multithread_dma_test.cpp:298-337 | every transfer address of a virtual test is aligned, virtual and physical |
| `VirtualTest.EnoughIsReadyThrough` | fuzz_dma/multithread_test_template.c:78-110 | the same for readiness checks of threads on virtual addresses: after enough turns every check finds its thread ready |
| `VirtualTest.RunVirtual` | fuzz_dma/multithread_test_template.c:51-112 | the threads are started at their virtual addresses on memory with the writes made; the loop comes to its end if and only if every thread has been seen ready, which is when a remainder modulo zero is taken; then all have stopped.  When no page is in use twice, all asserts hold then, and the loop does come to its end when all threads have had enough turns and a round per thread is left |
| `VirtualTest.GenerateAndRunVirtual` | fuzz_dma/generate_multithread_dma_test.cpp:197-356 | from any seed, number of threads and random pages: the test begins with all threads started at their virtual addresses; a remainder modulo zero is taken if and only if it comes to its end; when no page happens to be taken twice, the physical source bytes are numbered at first, no thread faults, a test that comes to its end passes, and it comes to its end if it is given enough turns and then a round per thread |
| `Shrinker.Without` | fuzz_cap.py:514-517 | the candidate is the test without the omitted instructions and the one being tried |
| `Shrinker.KeptInOrder` | fuzz_cap.py:514-517 | instructions that are not omitted stay in order: each moves forward by the number omitted before it, and nothing else is left |
| `Shrinker.Shrink` | fuzz_cap.py:507-525 | the result is the test without the instructions greedily omitted, in order, and empty if there are none |
| `Shrinker.GreedyLaw` | fuzz_cap.py:507-525 | whatever makes a test fail, an instruction is omitted if and only if the test still fails without it and those omitted before it |
| `Shrinker.GreedyUnique` | fuzz_cap.py:507-525 | no other set of instructions satisfies that law |
| `Shrinker.ShrunkFails` | fuzz_cap.py:507-525 | the result fails if and only if the empty test fails or some single instruction can be left out |
| `Shrinker.ShrinkLosesFailure` | fuzz_cap.py:507-525 | a failing test of one instruction is shrunk to a test that does not fail |
| `Shrinker.OnePassIsMinimal` | fuzz_cap.py:507-525 | if leaving out less keeps a test failing, no single instruction can be left out of the result |
| `Regex.LiteralPrefix` | tools/sim/__init__.py:62-63 | a pattern that starts with plain characters matches exactly the lines that start with them and go on as the rest says |
| `Regex.Concatenated` | tools/sim/__init__.py:74-85 | what two patterns match, one after the other matches the patterns one after the other |
| `Regex.Divided` | tools/sim/__init__.py:74-85 | and nothing else does |
| `Regex.FasterAgrees` | tools/sim/__init__.py:59-68 | looking at the start of the line first never changes whether a pattern matches, whatever the rest of it |
| `RegisterDump.SearchesAgree` | tools/sim/__init__.py:75-77 | the core, register and program counter lines are accepted exactly when their regular expressions match |
| `RegisterDump.PrintDump` | gxemultosim.c:99-103 | the loop prints the title, core, program counter and all 32 registers, in order |
| `RegisterDump.HexRoundTrip` | gxemultosim.c:101-103 | reading back n hexadecimal digits gives the number modulo 16 to the n |
| `RegisterDump.NumberMatches` | tools/sim/__init__.py:76 | a register number padded to two characters is matched and read back |
| `RegisterDump.RegisterLineParses` | tools/sim/__init__.py:293-300 | a printed register line sets exactly that register of the current thread |
| `RegisterDump.PcLineParses` | tools/sim/__init__.py:301-306 | a printed program counter line sets exactly the program counter |
| `RegisterDump.CoreLineParses` | tools/sim/__init__.py:289-292 | the core line makes thread 0 current |
| `RegisterDump.CoreNumberParses` | tools/sim/__init__.py:289-292 | a core line makes the core it names the current thread, for every number and any spaces |
| `RegisterDump.TitleLineParses` | tools/sim/__init__.py:274-281 | the title line changes nothing |
| `RegisterDump.MipsStatus.ParseLog` | tools/sim/__init__.py:267-306 | the loop leaves the threads that reading all lines leaves, and raises exactly when some line cannot be read; what each kind of line does is stated by the rows below |
| `RegisterDump.DumpRoundTrip` | tools/sim/__init__.py:267-306 | after any readable log, parsing the dump gives thread 0 exactly the printed program counter and 32 registers, and leaves all other threads alone |
| `LogLines.ThreadSearchAgrees` | tools/sim/__init__.py:74 | reading a title from the right finds a thread if and only if THREAD_RE matches some end of the line |
| `LogLines.ThreadLineParses` | tools/sim/__init__.py:274-281 | a thread header makes the thread it names the current one, for every number and any spaces |
| `LogLines.ThreadNumberParses` | tools/sim/__init__.py:274-281 | thread n is the current one after its header, for every n |
| `LogLines.RegisterNumberParses` | tools/sim/__init__.py:293-300 | a register line sets exactly the register it names, for any spaces, and raises for numbers from 32 on |
| `LogLines.EitherCase` | tools/sim/__init__.py:297 | hexadecimal digits are read in either case |
| `LogLines.CapCoreAgrees` | tools/sim/__init__.py:78 | the core of a capability line is found exactly when CAPMIPS_CORE_RE matches |
| `LogLines.CapCoreParses` | tools/sim/__init__.py:308-311 | it becomes the current thread, for every number and any spaces |
| `LogLines.CapabilityMatches` | tools/sim/__init__.py:80-82 | flags, rights, bounds and the last flag, in that order, are accepted as a capability |
| `LogLines.CapRegisterParses` | tools/sim/__init__.py:312-317 | a line about capability register n creates a status for the current thread, and raises for numbers from 32 on |
| `LogLines.CapSpecialParses` | tools/sim/__init__.py:318-323 | the same for special capability registers, with or without a name in parentheses |
| `LogLines.CapPcParses` | tools/sim/__init__.py:324-328 | a line about the program counter capability creates a status |

## Left out

- The instruction-field decoder and branch emulator of `cheri-c-tests/test_runtime.c`: each branch is a conditional
  expression, and would add only easy members.
- The input half of `gxemultosim.c`, which reads the emulator's own register format.
- The values of capability registers in `parse_log`; their lines are matched, but only the statuses they create and the numbers
  they reject are modelled.
- The functions of `fuzz_cap.py` that make tests; only the shrinker is modelled.
- Dhrystone, the pure-capability C tests, the Python register expectations and the C run-time start-up: fixed values, or
  dependent on hardware.
- Printing, option parsing, file handling, subprocesses and the scripts that fill the templates; the one for single-thread tests
  skips programs that make no transfers.
- Freeing of trees, programs and lists, and memory exhaustion.
- Random quality, the capacity of the TLB and its random replacement, and hardware timing: the order of the threads'
  instructions is arbitrary, and whether every thread gets enough turns is a matter for the hardware.
- The assertions that drawn page numbers are in range: draws are arbitrary, and what depends on the range takes it as a
  parameter.
- `BlockCopy.BlockCopy`: its calls are those that ISO/IEC 9899:2011 section 7.24.2 allows, regions inside memory, and no
  overlap for `memcpy` unless the destination is the lower region.  The variants that take capability arguments keep their
  callers' bounds, which contain the ones modelled.
- `Scheduler.Test`: what each readiness check finds is a parameter, and the calls that ask the engine to switch threads have no
  effect of their own, so every order the hardware could choose is covered.
