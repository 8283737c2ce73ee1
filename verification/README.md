# XIOM runtime: verified models of its cores

A Dafny model of the hardest parts of the XIOM C runtime, with proofs of what they compute and keep.
`dafny verify dfyconfig.toml` checks everything. The parts are independent of one another:

| part | files |
|---|---|
| worker pool and bounded channel, as methods over one ring and as transition systems | `Ring`, `Monitor`, `WorkerPool`, `PoolSystem`, `PoolTheorems`, `Channel` |
| guard arena: slabs, in-band headers, free lists linked through payloads | `GuardMemory`, `GuardHeap`, `GuardSlabs`, `GuardSteps`, `GuardArena`, `GuardTheorems` |
| 128-bit division | `WideDivision` |
| binary128 soft float | `Float128`, `Float128AddSub`, `Float128Rounding`, `Float128Mul`, `Float128Convert`, `Float128Double` |
| Windows command-line quoting against the C runtime's splitting rules | `WinQuote` |
| AES-128 in software | `GaloisField`, `Aes128`, `AesRounds`, `AesCipher`, `AesKeys`, `AesExample` |
| SHA-2 | `Padding`, `Sha256`, `Sha256Laws`, `Sha256Example`, `Sha512`, `Sha512Laws`, `Sha512Example`, `Sha2Tables` |
| the derive emitter for equality and ordering, an interpreter and a checker for what it emits | `DeriveIr`, `DeriveRun`, `DeriveCheck` |

`Arithmetic`, `Shifts`, `Words` and `Bytes` hold the integer and byte facts they share.

How things are modelled:

- A lock-held section of the pool or the channel is one method, from taking the lock to releasing it or to
  waiting, specified by a function on the abstract queue. The transition systems use the same functions:
  each step is one section, a signal wakes an arbitrary waiter, and spurious wake-ups may happen at any
  time. Jobs end and do not submit to their own pool. A run is a sequence of enabled actions. A lemma that
  takes `Inv` of a state holds in every reachable one, because `InitialInv` and `RunKeepsInv` give it there.
- The arena is a class over one byte-addressed memory. Blocks, free lists and carved extents are ghost
  state that `Valid` ties to the slab tables, the list heads and the bytes; each operation keeps `Valid`,
  so whatever follows from it holds after every sequence of calls. Answers of the operating system and of
  the main heap are parameters: a new slab is page-aligned and shares no byte with a slab or a main-heap
  allocation in use. `long` has 64 bits. Blocks orphaned by reallocation count as live.
- binary128 magnitudes are compared as integers: a number times 2^16495. Theorems about arithmetic
  take normal operands, and results in range where the source never checks the exponent.
- AES bytes and SHA words are bit-vectors; the xor and modular additions are named functions so that
  proofs can treat them algebraically. The substitution box is proved inverse by proving GF(2^8) a field, and
  the SHA-2 tables are proved to be fraction bits of roots of primes. Round functions are stated on bits and by
  their inverses, and the whole cipher and both hashes meet the published answers of FIPS 197 and FIPS 180-2;
  the examples list the intermediate values of these computations, one lemma a round.
- Emitted instructions are a datatype, one constructor for each textual form. The interpreter jumps to the
  next occurrence of a label; the checker shows that labels are distinct and every target exists. Registers
  are visible only where their block dominates.

Where the code and its comments differ, the model follows the code:

- the add and subtract comment promises exact IEEE rounding (`runtime/fp128_helpers.c:78`); the code truncates
  the smaller operand and the sum (`SameSignSum`, `OppositeSignSum`), so it rounds correctly exactly when the
  dropped bits allow it (`SameSignNearest`, `OppositeSignNearest`; it fails for `SumNotNearest`), and its
  infinity arms are right only in the cases of `InfinityArms`;
- the underflow arm of the conversion to double is described as a denormal path
  (`runtime/fp128_helpers.c:383`); it always gives zero (`ToF64Nearest`);
- a second shutdown call does not wait for the drain (`SecondShutdownReturnsEarly`); `ShutdownReturnsDrained`
  says which calls do;
- the quoter doubles a trailing backslash and escapes quotes in a program name as in any argument, though the C
  runtime reads the name literally (`ProgramRoundTrip`);
- a NUL-separated argument blob cannot carry an empty argument, though the quoter can (`SpawnRoundTrip`);
- the derived ordering compares floating-point fields with an integer instruction, the derived equality does
  so for 32-bit floats, and the equality of a struct without fields returns register -1 (`EqIsWellFormed`,
  `CompareIsWellFormed`);
- conversion to a signed 128-bit integer gives 0 from 2^113 on (`ToI128Truncates`).

## Model

| member | source | states |
|---|---|---|
| WorkerPools.WorkerPool.constructor | runtime/xiom_runtime.c:7906-7922 | a new pool is open, empty and has the capacity its worker count asks for |
| WorkerPools.WorkerPool.Create | runtime/xiom_runtime.c:7906-7945 | creation clamps the worker count to 1..256, sizes the ring at 256 slots a worker and at least 1024, and fails exactly when one of its three allocations or the first thread is refused; it works with the threads started before the first refusal |
| WorkerPools.Clamped | runtime/xiom_runtime.c:7909-7910 | a request of 1 to 256 workers is kept, any other becomes the nearer bound |
| WorkerPools.Capacity | runtime/xiom_runtime.c:7913-7914 | the least number of slots that meets both bounds |
| WorkerPools.WorkerPool.PollSection | runtime/xiom_runtime.c:7876-7888 | a worker's lock-held section takes the oldest job of the ring, waits on an open empty one and leaves a shut-down empty one |
| WorkerPools.WorkerPool.FinishSection | runtime/xiom_runtime.c:7896-7902 | a finished job moves from outstanding to completed, and joiners are woken exactly when none is outstanding |
| WorkerPools.WorkerPool.SubmitSection | runtime/xiom_runtime.c:7950-7966 | a submission appends to the ring and counts the job, parks on a full open ring and is refused after shutdown |
| WorkerPools.WorkerPool.ShutdownSection | runtime/xiom_runtime.c:7991-8002 | only the first call broadcasts and only the first call joins the threads |
| Ring.Push | runtime/xiom_runtime.c:7958-7962 | writing behind the last item of a wrapped ring appends to its contents |
| Ring.Pop | runtime/xiom_runtime.c:7884-7886 | advancing the head of a wrapped ring drops its first item |
| Monitor.SignalCounts | runtime/xiom_runtime.c:7887 | a signal moves exactly one waiter from parked to notified, or nobody when nobody waits |
| PoolSystem.StepKeepsInv | runtime/xiom_runtime.c:7872-8006 | every step of any worker or client keeps the accounting, the wake laws and the shutdown laws |
| PoolSystem.RunKeepsInv | runtime/xiom_runtime.c:7872-8006 | the invariants hold in every state any interleaving can reach, spurious wake-ups included |
| PoolSystem.InitialInv | runtime/xiom_runtime.c:7906-7945 | a newly created pool satisfies the invariants |
| PoolTheorems.StartedInOrder | runtime/xiom_runtime.c:7884-7894 | jobs start in acceptance order |
| PoolTheorems.ExactlyOnce | runtime/xiom_runtime.c:7872-7966 | from creation on, accepted jobs are the started ones followed by the queued ones; accepted = queued + running + completed, outstanding = queued + running, and no job is in two places |
| PoolTheorems.RunsWhatWasHandedIn | runtime/xiom_runtime.c:7947-7966 | told from the calls alone: the accepted jobs of any run from creation are those of the latest submit calls in the order of the accepting steps, and the started ones are the first of them |
| PoolTheorems.StepAccepts | runtime/xiom_runtime.c:7947-7966 | a step accepts the job of its own call on an open ring with room, and nothing otherwise; a submitter parks exactly on a full open ring |
| PoolTheorems.NothingOutstanding | runtime/xiom_runtime.c:7897-7901 | nothing is outstanding exactly when every accepted job has completed |
| PoolTheorems.JoinReturnsWhenDone | runtime/xiom_runtime.c:7977-7986 | a join step returns exactly at an instant when every accepted job has completed |
| PoolTheorems.ShutdownIsFinal | runtime/xiom_runtime.c:7951-7957 | after the flag is set nothing is accepted and no worker or submitter is parked or parks again |
| PoolTheorems.ShutdownDrains | runtime/xiom_runtime.c:8003-8005 | when all workers have exited the ring is empty, nothing is outstanding and every accepted job ran |
| PoolTheorems.FirstCallJoins | runtime/xiom_runtime.c:7997-8002 | a shutdown call goes on to join the threads if no call did before, and returns at once otherwise |
| PoolTheorems.JoiningUntilDrained | runtime/xiom_runtime.c:8003-8005 | over any run a call that joins the threads stays in the join until the pool is drained, and the pool is drained wherever it has returned |
| PoolTheorems.ShutdownReturnsDrained | runtime/xiom_runtime.c:7988-8006 | a shutdown call returns on a drained pool only, exactly when no call before it joined the threads or nothing is outstanding at the call |
| PoolTheorems.SecondShutdownReturnsEarly | runtime/xiom_runtime.c:7997-8000 | a second shutdown call returns at once: a run in which it does so with an accepted job still queued |
| PoolTheorems.ProgressDescends | runtime/xiom_runtime.c:7872-8006 | every worker or client step strictly decreases a measure, before and after shutdown |
| PoolTheorems.RunsAreBounded | runtime/xiom_runtime.c:7872-8006 | a run of such steps is no longer than the measure of its first state |
| PoolTheorems.NoLostWakeups | runtime/xiom_runtime.c:7872-7986 | a state in which no thread can move has an empty ring, every job done, every call returned and the workers parked or, after shutdown, exited |
| PoolTheorems.RestMeansDone | runtime/xiom_runtime.c:7872-8006 | from creation, a run that ends in a state where no thread can move has every accepted job done and every call returned |
| PoolTheorems.ComesToRest | runtime/xiom_runtime.c:7872-8006 | from every reachable state, whatever steps the threads take, such a state is still within reach, and the steps altogether stay within the measure |
| Channels.Channel.constructor | runtime/xiom_runtime.c:7656-7663 | a new channel is open and empty |
| Channels.Channel.SendSection | runtime/xiom_runtime.c:7665-7679 | a send appends one item to the 64-slot ring or parks when it is full |
| Channels.Channel.ReceiveSection | runtime/xiom_runtime.c:7681-7695 | a receive takes the oldest item or waits on an empty ring |
| Channels.Channel.TryReceiveSection | runtime/xiom_runtime.c:7697-7710 | the non-blocking receive takes the oldest item when there is one and never waits |
| ChannelSystem.StepKeepsInv | runtime/xiom_runtime.c:7665-7710 | every step keeps the two wake laws, the capacity and sent = received + queued |
| ChannelSystem.DeliversInOrder | runtime/xiom_runtime.c:7665-7710 | in every reachable state the received items are a prefix of the sent ones |
| ChannelSystem.DeliversWhatWasHandedIn | runtime/xiom_runtime.c:7665-7710 | told from the calls alone: the sent items are the values of the latest send calls in the order of the completing steps, and the received ones are the first of them |
| ChannelSystem.ReceiveDelivers | runtime/xiom_runtime.c:7681-7710 | a receive of either kind takes the oldest value sent and not yet received when there is one; without one the blocking receive parks and the other returns |
| ChannelSystem.RunsAreBounded | runtime/xiom_runtime.c:7665-7695 | calls under way cannot take steps forever |
| ChannelSystem.NoLostWakeups | runtime/xiom_runtime.c:7665-7695 | when nothing can move a waiting sender means a full ring, a waiting receiver an empty one, and never both |
| GuardArena.Arena.constructor | runtime/xiom_runtime.c:524-534 | a new arena has no slab, no block and empty lists |
| GuardArena.Arena.Enter | runtime/xiom_runtime.c:523-537 | entering nests and changes nothing else |
| GuardArena.Arena.Exit | runtime/xiom_runtime.c:540-558 | inner exits keep everything but the depth; the outermost one drops every slab, block and list entry, and no byte outside the arena changes |
| GuardArena.Arena.AddSlab | runtime/xiom_runtime.c:624-641 | a slab is pushed exactly when the tables have or get room and the system answers |
| GuardArena.Arena.EnsureSlab | runtime/xiom_runtime.c:501-520 | a 64 KB slab is added exactly when the current one has no room left and the system grants it; otherwise nothing changes |
| GuardArena.Arena.HandOut | runtime/xiom_runtime.c:642-658 | a block is carved at the end of the carved part with header and zero payload, and no live byte changes |
| GuardArena.Arena.Reuse | runtime/xiom_runtime.c:576-598 | unlinking a free block at any place of its list and handing it out keeps every other block as it was |
| GuardArena.Arena.TakeFree | runtime/xiom_runtime.c:572-601 | returns a block of exactly the asked size, zeroed, exactly when one is free, from indexed and size-scanned lists alike |
| GuardArena.Arena.CarveNew | runtime/xiom_runtime.c:621-659 | carves in the current slab, in a new one, or in an oversized one of its own; fails only when refused |
| GuardArena.Arena.MainAlloc | runtime/xiom_runtime.c:394-412 | the plain allocator returns zeroed main-heap bytes that were unused, or null, and writes nothing else |
| GuardArena.Arena.Alloc | runtime/xiom_runtime.c:604-659 | every non-null result starts with the asked number of zero bytes: outside unsafe blocks in new main-heap memory, inside in a block that was not live; the first freed block of the rounded size is reused exactly when there is one; no live byte changes |
| GuardSteps.Rounded | runtime/xiom_runtime.c:614-617 | payload plus header rounded up to 16 bytes, never below 32 |
| GuardArena.Arena.Free | runtime/xiom_runtime.c:728-742 | a live block becomes free; a second free and an arena address without a live header change nothing; any other address leaves the main heap |
| GuardArena.Arena.Realloc | runtime/xiom_runtime.c:749-772 | the first min(old, new) bytes are kept and the rest is zero; the old block is orphaned unharmed; main-heap pointers stay main-heap pointers, keep the bytes of their allocation that fit and disturb no other one |
| GuardArena.Arena.MainRealloc | runtime/xiom_runtime.c:749-764 | the plain reallocation: the allocation moves, its bytes that fit are kept, and no other allocation or live byte changes |
| GuardArena.Arena.MoveBlock | runtime/xiom_runtime.c:765-772 | a new block holds the old bytes that fit and zeros behind them; the old block is orphaned unharmed |
| GuardArena.Arena.Contains | runtime/xiom_runtime.c:697-705 | true exactly for addresses inside a slab |
| GuardArena.Arena.CopyOut | runtime/xiom_runtime.c:673-678 | the copy has the same bytes, lies outside the arena and changes nothing else |
| GuardArena.Arena.CopyOutIfArena | runtime/xiom_runtime.c:712-719 | arena buffers are copied out, main-heap pointers returned as they are; the result is never in the arena |
| GuardArena.Arena.Store | runtime/xiom_runtime.c:434-451 | a program store to a live payload keeps the invariant and every other block byte |
| GuardHeap.Bucket | runtime/xiom_runtime.c:562-568 | indexed lists hold one size each, the last list only sizes from 1024 on |
| GuardHeap.Carve | runtime/xiom_runtime.c:652-658 | carving keeps lists, links and headers sound |
| GuardHeap.Take | runtime/xiom_runtime.c:576-598 | unlinking keeps lists, links and headers sound |
| GuardHeap.Put | runtime/xiom_runtime.c:734-741 | freeing keeps lists, links and headers sound |
| GuardHeap.PayloadWrite | runtime/xiom_runtime.c:434-451 | writes inside a live payload touch no header and no link |
| GuardMemory.WriteRead | runtime/xiom_runtime.c:448-451 | a stored 64-bit word reads back |
| GuardSlabs.TileFresh | runtime/xiom_runtime.c:652-657 | the carving position is clear of every block |
| GuardTheorems.CarvedBytesPartitioned | runtime/xiom_runtime.c:501-772 | a byte is carved exactly when it is in a block, and then in one only; each block is one of live, orphaned and free |
| GuardTheorems.BlocksInSlabs | runtime/xiom_runtime.c:614-658 | blocks are 16-byte aligned and inside one slab |
| GuardTheorems.FreeExactlyOnce | runtime/xiom_runtime.c:572-601 | a free block is at one place of one list, a live one on none |
| GuardTheorems.BucketSizes | runtime/xiom_runtime.c:562-568 | list b below 64 holds only blocks of 16b bytes, list 64 only blocks of at least 1024 |
| GuardTheorems.ChainsEnd | runtime/xiom_runtime.c:576-600 | the chain in memory from each list head visits the list and stops at null |
| GuardTheorems.CarvedEqualsPeak | runtime/xiom_runtime.c:562-659 | blocks ever carved of a size equal the peak number live at once, so while fewer are live the next allocation carves nothing |
| GuardTheorems.FreeThenAlloc | runtime/xiom_runtime.c:572-659 | freeing a block and allocating its size again gives the same block, with slabs, blocks and lists as before |
| GuardTheorems.BalancedLoop | runtime/xiom_runtime.c:721-742 | any number of such rounds leaves slabs, blocks and lists as they were |
| GuardTheorems.MainHeapOutside | runtime/xiom_runtime.c:697-719 | no main-heap allocation made through the arena shares a byte with it |
| GuardTheorems.MainHeapSurvives | runtime/xiom_runtime.c:540-772 | over any history of operations, exits included, a main-heap allocation keeps its bytes while it is on record |
| GuardTheorems.CopyOutThenExit | runtime/xiom_runtime.c:540-678 | what is copied out is still there after the unsafe block is left |
| WideDivision.UDivTi3 | runtime/xiom_runtime.c:9180-9193 | the 129-bit-remainder loop returns floor(a / b) for all a and nonzero b |
| WideDivision.DivTi3 | runtime/xiom_runtime.c:9195-9206 | signed division truncates toward zero; the minimum divided by -1 is the minimum |
| WideDivision.UModTi3 | runtime/xiom_runtime.c:9217-9220 | the unsigned remainder |
| WideDivision.ModTi3 | runtime/xiom_runtime.c:9212-9215 | the remainder is smaller than the divisor and has the dividend's sign; 0 in the overflowing case |
| WideDivision.TruncatesUnique | runtime/xiom_runtime.c:9195-9215 | truncating division has one quotient and one remainder |
| Float128.PackFields | runtime/fp128_helpers.c:43-50 | packing keeps sign, exponent and fraction and nothing else |
| Float128.RoundPackNearest | runtime/fp128_helpers.c:54-75 | the rounding step is round-to-nearest, ties to even, carry into the exponent included |
| Float128.TowardZeroUnique | runtime/fp128_helpers.c:54-75 | a value has one normal truncation |
| Float128.CountBits | runtime/fp128_helpers.c:275-277 | the right-shift loop counts significant bits |
| Float128.LeftJustify | runtime/fp128_helpers.c:122-124 | the left-shift loop moves the leading one to bit 127 |
| Float128.TopSigShift | runtime/fp128_helpers.c:124-127 | the renormalised significand is the value moved up exactly or its top 113 bits |
| Float128AddSub.AddSubImpl | runtime/fp128_helpers.c:79-161 | the imperative routine equals the case-by-case definition |
| Float128AddSub.AddMagnitudesImpl | runtime/fp128_helpers.c:117-128 | same-sign path: one alignment, one sum, one normalising loop |
| Float128AddSub.SubMagnitudesImpl | runtime/fp128_helpers.c:129-160 | opposite-sign path: larger operand first, one difference |
| Float128AddSub.SameSignSum | runtime/fp128_helpers.c:113-128 | a same-sign sum is the exact sum rounded toward zero |
| Float128AddSub.OppositeSignSum | runtime/fp128_helpers.c:129-160 | an opposite-sign result is never smaller in magnitude than the exact one, off by less than one last place of the larger operand, and exact precisely when no one-bit is shifted out |
| Float128AddSub.ZeroOperandIsExact | runtime/fp128_helpers.c:98-112 | a zero and a normal operand give the exact sum or difference |
| Float128AddSub.ZeroPlusZero | runtime/fp128_helpers.c:100-104 | two zeros give a zero, negative exactly when both effective signs are (IEEE 754-2008 section 6.3) |
| Float128AddSub.NanOperandReturned | runtime/fp128_helpers.c:80-81 | an operand that is no number is returned, the first one if both are |
| Float128AddSub.InfinityReturned | runtime/fp128_helpers.c:82-89 | with an infinite operand the result is no number exactly for two infinities with the tested sign relation; otherwise the first infinite operand comes back as it is |
| Float128Rounding.NearestFromAbove | runtime/fp128_helpers.c:78-161 | an independent definition of rounding to nearest, against every number, reduced to the last place for values above |
| Float128Rounding.NearestFromBelow | runtime/fp128_helpers.c:78-161 | the same for values below, where the spacing halves at the bottom of a binade |
| Float128Rounding.SameSignNearest | runtime/fp128_helpers.c:113-128 | a same-sign sum is correctly rounded, ties to even, exactly when the dropped bits meet a condition on the operand significands |
| Float128Rounding.OppositeSignNearest | runtime/fp128_helpers.c:129-160 | likewise for opposite signs, at the bottom of a binade too; the result is the truncated one exactly when no one-bit is shifted out |
| Float128Rounding.SumNotNearest | runtime/fp128_helpers.c:113-128 | a sum of two numbers of one binade that goes to the odd neighbour of a tie |
| Float128Rounding.DifferenceNotNearest | runtime/fp128_helpers.c:129-160 | a difference that is not the nearest number |
| Float128AddSub.CancellationIsPositiveZero | runtime/fp128_helpers.c:149 | total cancellation gives positive zero |
| Float128AddSub.AddCommutes | runtime/fp128_helpers.c:79-161 | addition commutes bit for bit exactly unless both operands are distinct NaNs or opposite infinities |
| Float128AddSub.InfinityArms | runtime/fp128_helpers.c:82-89 | the infinity arms meet IEEE 754 exactly when one operand is infinite and it is not subtracted |
| Float128AddSub.InfinityExamples | runtime/fp128_helpers.c:82-89 | infinity minus infinity is infinity, infinity plus infinity is no number, one minus infinity is positive |
| Float128Mul.MultiplyValue | runtime/fp128_helpers.c:179-195 | the four partial products assemble the whole product |
| Float128Mul.TopBitsShift | runtime/fp128_helpers.c:203-210 | the two shift patterns are the floor of the product over 2^113 and 2^112 |
| Float128Mul.MulTowardZero | runtime/fp128_helpers.c:165-212 | the product of normal operands is the exact product rounded toward zero |
| Float128Mul.MulSpecials | runtime/fp128_helpers.c:165-176 | products with zeros, infinities and NaNs: zero times infinity is no number, and every other such product has the sign rule of IEEE 754 |
| Float128Mul.UDiv114 | runtime/fp128_helpers.c:215-236 | the loop returns floor(num * 2^114 / den) |
| Float128Convert.FromI64 | runtime/fp128_helpers.c:271-281 | signed 64-bit conversion |
| Float128Convert.FromWord | runtime/fp128_helpers.c:282-290 | unsigned 64-bit conversion |
| Float128Convert.FromI128 | runtime/fp128_helpers.c:348-358 | 128-bit conversion from a word and its sign |
| Float128Convert.FromIntExact | runtime/fp128_helpers.c:271-290 | magnitudes below 2^113 convert exactly |
| Float128Convert.FromIntTowardZero | runtime/fp128_helpers.c:348-358 | wider magnitudes are truncated to 113 bits |
| Float128Convert.FromIntZero | runtime/fp128_helpers.c:271-290 | the integer zero becomes the zero of the given sign |
| Float128Convert.SpecialsBecomeZero | runtime/fp128_helpers.c:402-443 | zeros, infinities and NaNs convert to 0, and negative numbers do as unsigned words |
| Float128Convert.ToI64Truncates | runtime/fp128_helpers.c:402-416 | conversion to int64 truncates when the result fits and is 0 otherwise |
| Float128Convert.ToI128Truncates | runtime/fp128_helpers.c:427-443 | conversion to a 128-bit integer truncates exactly below 2^113 |
| Float128Convert.LargeBecomesZero | runtime/fp128_helpers.c:427-443 | 2^113 becomes 0 |
| Float128Convert.ToU64Truncates | runtime/fp128_helpers.c:417-426 | conversion to uint64 truncates exactly when the integer part is a 64-bit word |
| Float128Convert.I64RoundTrip | runtime/fp128_helpers.c:402-416 | every int64 survives |
| Float128Convert.U64RoundTrip | runtime/fp128_helpers.c:417-426 | every uint64 survives |
| Float128Convert.I128RoundTrip | runtime/fp128_helpers.c:427-443 | a 128-bit integer, given as its two's-complement word and sign, survives exactly when its magnitude is below 2^113 |
| Float128Double.RoundedDouble | runtime/fp128_helpers.c:390-398 | mantissa carry moves into the exponent, up to infinity |
| Float128Double.NeighboursSuffice | runtime/fp128_helpers.c:390-398 | beating both neighbouring doubles is beating every double |
| Float128Double.ToF64Nearest | runtime/fp128_helpers.c:365-399 | conversion to double is correctly rounded, ties to even, exactly when the target is not subnormal or the correct result is zero |
| Float128Double.SubnormalBecomesZero | runtime/fp128_helpers.c:382-389 | 2^-1023, a double, becomes 0 |
| Float128Double.FromF64Exact | runtime/fp128_helpers.c:292-303 | every normal double converts exactly |
| Float128Double.FromF64Specials | runtime/fp128_helpers.c:292-303 | a double becomes zero, infinite or no number exactly when it is, and keeps its sign |
| Float128Double.ToF64Specials | runtime/fp128_helpers.c:365-374 | zeros and infinities convert with their sign, NaNs to the one NaN |
| Float128Double.F64RoundTrip | runtime/fp128_helpers.c:292-303 | a double survives bit for bit exactly when it is zero, normal, infinite or the canonical NaN |
| WinQuote.Put | runtime/xiom_runtime.c:5024-5025 | one character is written unless no room for the terminator would be left |
| WinQuote.MustQuote | runtime/xiom_runtime.c:5027-5032 | quotes are needed exactly for empty arguments and those with a blank or a quote |
| WinQuote.PutPlain | runtime/xiom_runtime.c:5033-5040 | plain arguments are copied |
| WinQuote.PutQuoted | runtime/xiom_runtime.c:5041-5078 | backslash runs before a quote are doubled plus one, others kept, trailing runs doubled |
| WinQuote.PutClosing | runtime/xiom_runtime.c:5070-5079 | the held-back run is doubled before the closing quote |
| WinQuote.QuoteArg | runtime/xiom_runtime.c:5018-5080 | appends exactly the separator and the quoted argument, fails exactly when line and terminator do not fit, and writes only between the position and the capacity |
| WinQuote.PlainStaysPlain | runtime/xiom_runtime.c:5027-5040 | an argument stands unquoted exactly when it is not empty and holds no blank, tab or quote |
| WinQuote.QuotedExample | runtime/xiom_runtime.c:5041-5079 | a kept backslash, one doubled before a quote and one doubled at the end |
| WinQuote.BuildLine | runtime/xiom_runtime.c:5180-5192 | the line of a whole argument blob, or of the file name when the blob is empty |
| WinQuote.RoundTrip | runtime/xiom_runtime.c:5018-5080 | arguments behind the program name: the built line splits by the Microsoft C runtime rules into exactly the list |
| WinQuote.ProgramRoundTrip | runtime/xiom_runtime.c:5018-5080 | with the program name read by its own rule, the whole list survives exactly when the name has no quote and does not both need quoting and end in a backslash |
| WinQuote.NameGainsBackslash | runtime/xiom_runtime.c:5070-5077 | a program name with a blank and a trailing backslash is read with two |
| WinQuote.LinesAreDistinct | runtime/xiom_runtime.c:5018-5080 | different argument lists have different lines |
| WinQuote.SplitEscaped | runtime/xiom_runtime.c:5043-5077 | reading the escaped text and its closing quote gives the argument |
| WinQuote.SpawnRoundTrip | runtime/xiom_runtime.c:5165-5192 | through the blob the child gets the caller's list exactly when no argument is empty and the program name survives |
| WinQuote.EmptyArgumentCuts | runtime/xiom_runtime.c:5180-5186 | an empty argument ends the list |
| WinQuote.EmptyBlobNamesFile | runtime/xiom_runtime.c:5189-5192 | an empty blob passes the file name alone |
| GaloisField.MulImpl | runtime/xiom_runtime.c:93-102 | the shift-and-add loop is the field product |
| GaloisField.MulCommutes | runtime/xiom_runtime.c:93-102 | the product commutes |
| GaloisField.MulAssociates | runtime/xiom_runtime.c:93-102 | the product associates |
| GaloisField.MulOfSum | runtime/xiom_runtime.c:93-102 | the product distributes over xor |
| GaloisField.MulOne | runtime/xiom_runtime.c:93-102 | 1 is neutral |
| GaloisField.PowImpl | runtime/xiom_runtime.c:104-112 | square-and-multiply is the power |
| GaloisField.FermatLittle | runtime/xiom_runtime.c:120 | a^256 = a for every byte |
| GaloisField.InverseMultiplies | runtime/xiom_runtime.c:120 | a^254 is the multiplicative inverse, 0 goes to 0 |
| GaloisField.InverseIsUnique | runtime/xiom_runtime.c:120 | it is the only one |
| Aes128.AffineBits | runtime/xiom_runtime.c:122-125 | the rotate-and-xor form is the bit equation of FIPS 197 section 5.1.1 |
| Aes128.BoxesInvert | runtime/xiom_runtime.c:116-130 | the two substitution boxes undo each other on every byte |
| Aes128.Tables.constructor | runtime/xiom_runtime.c:85-87 | the tables start unfilled |
| Aes128.Tables.InitTables | runtime/xiom_runtime.c:116-130 | the loop fills both tables with the box and its inverse; a second call changes nothing |
| AesRounds.SubBytesInvert | runtime/xiom_runtime.c:132-150 | the substitution steps undo each other |
| AesRounds.ShiftRowsInvert | runtime/xiom_runtime.c:136-149 | the row shifts undo each other |
| AesRounds.MixColumnsInvert | runtime/xiom_runtime.c:152-177 | the two column matrices undo each other |
| AesRounds.AddRoundKeyInverts | runtime/xiom_runtime.c:179-182 | adding a round key twice changes nothing |
| AesRounds.AddRoundKeyBits | runtime/xiom_runtime.c:179-182 | FIPS 197 section 5.1.4: a bit is set exactly when one and only one of the state bit and the key bit is |
| AesRounds.ShiftRowsMoves | runtime/xiom_runtime.c:136-139 | FIPS 197 section 5.1.2: row r of the result is row r of the state, read from column c + r on |
| AesCipher.SubShift | runtime/xiom_runtime.c:132-140 | in-place substitution and row shift |
| AesCipher.InvSubShift | runtime/xiom_runtime.c:142-150 | their in-place inverse |
| AesCipher.MixColumnsImpl | runtime/xiom_runtime.c:152-161 | the in-place loop multiplies each column by the circulant of 02 03 01 01 |
| AesCipher.InvMixColumnsImpl | runtime/xiom_runtime.c:163-177 | the in-place loop multiplies each column by the circulant of 0e 0b 0d 09 |
| AesCipher.AddRoundKeyImpl | runtime/xiom_runtime.c:179-182 | the in-place key addition |
| AesCipher.EncryptBlock | runtime/xiom_runtime.c:204-217 | a block is replaced by the FIPS 197 section 5.1 cipher of it, and no other output byte changes |
| AesCipher.DecryptBlock | runtime/xiom_runtime.c:219-232 | likewise for section 5.3 |
| AesCipher.DecryptUndoesEncrypt | runtime/xiom_runtime.c:204-232 | for every block and every 176-byte key buffer decryption and encryption undo each other |
| AesCipher.LastKeyShows | runtime/xiom_runtime.c:204-217 | buffers that differ in the last round key only give ciphertexts that differ by the xor of those keys, byte by byte |
| AesCipher.FirstKeyWhitens | runtime/xiom_runtime.c:204-217 | under buffers that differ in the first round key only, two blocks encrypt alike exactly when they differ by the xor of those keys |
| AesKeys.RoundConstant | runtime/xiom_runtime.c:185 | the round constants are the powers of x |
| AesKeys.KeyExpand | runtime/xiom_runtime.c:184-202 | the buffer is filled with the key schedule of FIPS 197 section 5.2 |
| AesExample.BoxTable | runtime/xiom_runtime.c:116-130 | the substitution box is the table of FIPS 197 figure 7 |
| AesExample.ExpansionExample | runtime/xiom_runtime.c:184-202 | the eleven round keys of FIPS 197 appendix C.1 |
| AesExample.CipherExample | runtime/xiom_runtime.c:204-232 | the block of FIPS 197 appendix C.1 encrypts to the listed ciphertext under the listed key and back |
| Padding.PadBlocks | runtime/sha256_sw.c:114-143 | the padded message is the whole blocks and one or two more |
| Padding.PadIsMinimal | runtime/sha256_sw.c:120-132 | padding reaches a block boundary with the fewest zero bytes |
| Padding.PadIsInjective | runtime/sha256_sw.c:120-143 | different messages have different paddings |
| Padding.BlocksPush | runtime/sha256_sw.c:103-110 | one more byte completes a block or lengthens the tail |
| Padding.TailIsRemainder | runtime/sha256_sw.c:103-110 | the buffered tail is the length modulo the block size |
| Sha256.WordRoundTrip | runtime/sha256_sw.c:48-49 | serialising a word and reading it back |
| Sha256.Schedule | runtime/sha256_sw.c:48-51 | the message schedule of FIPS 180-4 section 6.2.2 |
| Sha256.RunRounds | runtime/sha256_sw.c:53-73 | the 64 rounds of section 6.2.2 |
| Sha256.Context.constructor | runtime/sha256_sw.c:85-97 | an initialised context has absorbed nothing |
| Sha256.Context.Transform | runtime/sha256_sw.c:44-83 | the state becomes the compression of the block |
| Sha256.Context.FlushBlock | runtime/sha256_sw.c:106-110 | a full buffer is compressed and counted |
| Sha256.Context.PushByte | runtime/sha256_sw.c:104-110 | one absorbed byte keeps state, buffer and bit count in step with the message |
| Sha256.Context.Update | runtime/sha256_sw.c:99-112 | any chunk below 2^32 bytes extends the absorbed message by exactly itself |
| Sha256.Context.PadTail | runtime/sha256_sw.c:120-132 | padding up to the length field, with an extra block when it does not fit |
| Sha256.Context.PutLength | runtime/sha256_sw.c:135-143 | the bit length in the last eight bytes |
| Sha256.Context.PutDigest | runtime/sha256_sw.c:148-157 | the digest bytes, big-endian |
| Sha256.Context.Final | runtime/sha256_sw.c:114-158 | after any sequence of chunks the output is the block fold over the padding of their concatenation |
| Sha256.Context.StartSha224 | runtime/sha256_sw.c:192-196 | the SHA-224 initial value |
| Sha256.HashSha256 | runtime/sha256_sw.c:177-182 | one-shot SHA-256 |
| Sha256.HashSha224 | runtime/sha256_sw.c:188-200 | one-shot SHA-224, 28 bytes |
| Sha256Laws.ChBits | runtime/sha256_sw.c:24 | a bit of y where x is set, of z elsewhere |
| Sha256Laws.MajBits | runtime/sha256_sw.c:25 | a bit is set where at least two of three are |
| Sha256Laws.BigSigma0Bits | runtime/sha256_sw.c:26 | the xor of the bits at the stated distances |
| Sha256Laws.BigSigma1Bits | runtime/sha256_sw.c:27 | the xor of the bits at the stated distances |
| Sha256Laws.SmallSigma0Bits | runtime/sha256_sw.c:28 | two rotations and a shift, bit by bit |
| Sha256Laws.SmallSigma1Bits | runtime/sha256_sw.c:29 | two rotations and a shift, bit by bit |
| Sha256Laws.WordShows | runtime/sha256_sw.c:62-73 | schedule words that differ show by their difference in the two new variables and nowhere else |
| Sha256Laws.ConstantShows | runtime/sha256_sw.c:62-73 | so do round constants |
| Sha256Laws.RoundInverts | runtime/sha256_sw.c:62-73 | a round is a permutation of the variables: an explicit inverse undoes it on both sides |
| Sha256Laws.RoundsInvert | runtime/sha256_sw.c:62-73 | the rounds together are undone by their inverses in reverse order |
| Sha256Laws.CompressUndone | runtime/sha256_sw.c:53-82 | taking the hash value off a compression and undoing the rounds gives the hash value back |
| Sha256Laws.ScheduleInverts | runtime/sha256_sw.c:48-51 | the recurrence read backwards: each word is determined by the sixteen behind it |
| Sha256Example.DigestOfAbc | runtime/sha256_sw.c:114-182 | the digest of "abc": the model of the whole hash gives the published answer (appendix B.1 of FIPS 180-2) |
| Sha512.Transform | runtime/xiom_runtime.c:8524-8543 | the state becomes the compression of FIPS 180-4 section 6.4.2 |
| Sha512.Schedule | runtime/xiom_runtime.c:8527-8534 | its message schedule |
| Sha512.RunRounds | runtime/xiom_runtime.c:8536-8540 | its 80 rounds |
| Sha512.WholeBlocks | runtime/xiom_runtime.c:8551-8554 | the whole blocks of the message are folded |
| Sha512.PutLength | runtime/xiom_runtime.c:8563-8569 | the bit length modulo 2^64 in the last eight bytes |
| Sha512.PutWords | runtime/xiom_runtime.c:8571-8580 | the first words of the state, big-endian |
| Sha512.Core | runtime/xiom_runtime.c:8548-8581 | the driver folds the whole blocks and its one or two final blocks |
| Sha512.DriverMatchesStandard | runtime/xiom_runtime.c:8548-8581 | those are the blocks of FIPS 180-4 section 5.1.2 exactly for messages below 2^61 bytes |
| Sha512.HashSha512 | runtime/xiom_runtime.c:8583-8591 | one-shot SHA-512 |
| Sha512.HashSha384 | runtime/xiom_runtime.c:8643-8651 | one-shot SHA-384, 48 bytes |
| Sha512.WordRoundTrip | runtime/xiom_runtime.c:8528-8531 | serialising a word and reading it back |
| Sha512Laws.ChBits | runtime/xiom_runtime.c:8517 | a bit of y where x is set, of z elsewhere |
| Sha512Laws.MajBits | runtime/xiom_runtime.c:8518 | a bit is set where at least two of three are |
| Sha512Laws.BigSigma0Bits | runtime/xiom_runtime.c:8519 | the xor of the bits at the stated distances |
| Sha512Laws.BigSigma1Bits | runtime/xiom_runtime.c:8520 | the xor of the bits at the stated distances |
| Sha512Laws.SmallSigma0Bits | runtime/xiom_runtime.c:8521 | two rotations and a shift, bit by bit |
| Sha512Laws.SmallSigma1Bits | runtime/xiom_runtime.c:8522 | two rotations and a shift, bit by bit |
| Sha512Laws.WordShows | runtime/xiom_runtime.c:8537-8541 | schedule words that differ show by their difference in the two new variables and nowhere else |
| Sha512Laws.ConstantShows | runtime/xiom_runtime.c:8537-8541 | so do round constants |
| Sha512Laws.RoundInverts | runtime/xiom_runtime.c:8537-8541 | a round is a permutation of the variables: an explicit inverse undoes it on both sides |
| Sha512Laws.RoundsInvert | runtime/xiom_runtime.c:8537-8541 | the rounds together are undone by their inverses in reverse order |
| Sha512Laws.CompressUndone | runtime/xiom_runtime.c:8536-8544 | taking the hash value off a compression and undoing the rounds gives the hash value back |
| Sha512Laws.ScheduleInverts | runtime/xiom_runtime.c:8527-8535 | the recurrence read backwards: each word is determined by the sixteen behind it |
| Sha512Example.DigestOfAbc | runtime/xiom_runtime.c:8548-8591 | the digest of "abc" (appendix C.1 of FIPS 180-2) |
| Sha2Tables.RoundConstantsAgree | runtime/xiom_runtime.c:8493-8514 | each SHA-256 constant is the leading half of the SHA-512 constant |
| Sha2Tables.RoundConstantsAreCubeRoots | runtime/xiom_runtime.c:8493-8514 | each SHA-512 constant is the first 64 fraction bits of the cube root of its prime |
| Sha2Tables.Sha512StartsFromSquareRoots | runtime/xiom_runtime.c:8584-8589 | the SHA-512 initial words are the fraction bits of the square roots of the first eight primes |
| Sha2Tables.Sha384StartsFromSquareRoots | runtime/xiom_runtime.c:8644-8649 | the SHA-384 initial words are those of the next eight |
| Sha2Tables.InitialValuesAgree | runtime/xiom_runtime.c:8584-8589 | the 32-bit initial values are halves of the 64-bit ones |
| DeriveIr.Emitter.constructor | runtime/xiom_runtime.c:4115-4118 | the stream starts empty with register 0 |
| DeriveIr.Emitter.EmitPrologue | runtime/xiom_runtime.c:4117-4123 | both arguments are stored to the stack |
| DeriveIr.Emitter.EmitEqTest | runtime/xiom_runtime.c:4129-4146 | one field comparison, widened to an integer |
| DeriveIr.Emitter.EmitEq | runtime/xiom_runtime.c:4115-4165 | the emitted equality and the registers it takes |
| DeriveIr.Emitter.EmitOrdField | runtime/xiom_runtime.c:4241-4265 | one field of the ordering |
| DeriveIr.Emitter.EmitCompare | runtime/xiom_runtime.c:4230-4270 | the emitted comparison and the registers it takes |
| DeriveRun.CompareIsLexicographic | runtime/xiom_runtime.c:4230-4270 | running the comparison on integer structs returns their lexicographic order, -1, 0 or 1 |
| DeriveRun.EqualsIsFieldwise | runtime/xiom_runtime.c:4115-4165 | running the equality returns 1 exactly when all fields are equal, NaN fields never being |
| DeriveRun.EqualExactlyWhenCompareIsZero | runtime/xiom_runtime.c:4115-4270 | equality returns 1 exactly when the comparison returns 0 |
| DeriveRun.CompareIsOrder | runtime/xiom_runtime.c:4230-4270 | the comparison is antisymmetric and transitive |
| DeriveCheck.WellFormedIsSsa | runtime/xiom_runtime.c:4115-4270 | well-formed code assigns each register once and before use and places no label twice |
| DeriveCheck.EqIsWellFormed | runtime/xiom_runtime.c:4115-4165 | the equality is well formed exactly for structs with a field and without a 32-bit float field |
| DeriveCheck.CompareIsWellFormed | runtime/xiom_runtime.c:4230-4270 | the comparison is well formed exactly for structs of integers |
| DeriveCheck.EqIllFormed | runtime/xiom_runtime.c:4129-4165 | the ill-formed instruction for a 32-bit float field, and the missing register of an empty struct |
| DeriveCheck.CompareIllFormed | runtime/xiom_runtime.c:4241-4265 | the ill-formed instruction for a floating-point field |

## Left out

- Float128Convert.ToI128Truncates: stated for values in the range of the type; the unsigned 128-bit conversion shares its shape and is not modelled.
- Float128AddSub.SameSignSum: takes an exponent gap below 128, because from there on the source shifts by more than a word, which C leaves undefined, and results below overflow.
- Float128AddSub.OppositeSignSum: takes results of normal magnitude, because below it the source packs an exponent that has left its field.
- WideDivision.ModTi3: for the minimum and -1 the source multiplies the minimum by -1, which C leaves undefined; the model wraps.
- Float128Convert.ToI64Truncates: at -2^63 the source negates the minimum as a signed number, which C leaves undefined; the model wraps.
- Float128Convert.I64RoundTrip: the same at -2^63.
- GuardArena.Arena.Realloc: a main-heap pointer has to be that of an allocation on record, as the C library demands of `realloc`; what it holds beyond the moved bytes is left open.
- WideDivision.DivTi3: the minimum divided by 1 negates 2^127 as a signed number, which C leaves undefined; the model wraps.
- Float128Rounding.SameSignNearest: judges the result as if the exponent had no upper bound, under the conditions of `SameSignSum`.
- Float128Mul.MulTowardZero: excludes results whose exponent leaves the normal range, because the source packs it without a check.
- PoolTheorems.RunsAreBounded: new calls and spurious wake-ups are not counted as steps, because either can go on forever.
- GuardArena.Arena.Alloc: sizes are mathematical integers, so the sum of the carving offset and a size within 64 KB of the largest 64-bit integer does not overflow here.
- GuardArena.Arena.Free: an address inside a live payload behind bytes that imitate a header is excluded, because the source would treat it as a block.
- Sha512.Core: takes messages at least 128 bytes shorter than 2^64, because the position would wrap at the end of the address space.
- Sha256.Context.Update: takes chunks below 2^32 bytes, because the source indexes them with a 32-bit word and would not end on longer ones.
- AesCipher.EncryptBlock: the hardware and assembly paths and the unsynchronised first filling of the tables are not modelled.
- DeriveIr.Emitter.EmitEq: the textual syntax of the instructions and the parsing of the source struct, with its limit of 256 fields, are not modelled; nor are the clone, hash and display functions.
- WinQuote.RoundTrip: splits the first argument by the rules for the others; `ProgramRoundTrip` is the statement for whole lines.
- Pool and channel: destroying them, the size and counter queries, and the closed flag of the channel, which nothing sets.
- The NUL-terminated copy out of the arena, the allocation probe and the guard pages.
- binary128: division as a whole (an odd significand loses its low bit), comparisons, negation, subnormal operands, NaN payloads and the 32-bit float conversions.
- 256-bit arithmetic and the curves above it, whose carry handling does not satisfy the field laws.
- The process-wide thread pool, which takes one worker's lock while holding another's and has no progress theorem.
- The body and match lowering of the compiler, a text scanner without a source semantics.
- Files, sockets, processes, event loops, time, environment, string helpers and hot reload: operating-system wrappers and simple members.
