# Booth: verified models of the compiler's hand-written algorithms

Booth compiles CUDA, HIP and Triton to AMDGPU and RISC-V without LLVM, so its back end is a set of
algorithms over fixed arrays: register allocation, scheduling, wait insertion, divergent control
flow, dominators, binary encoding, a soft-float runtime and a record buffer. This project models
them in Dafny and proves what they are for. `dafny verify dfyconfig.toml` checks everything.

Where the source works by changing state, so does the model: loops over arrays or over sequence-valued
fields, classes with `modifies` clauses, the same branches and limits. Each such method is tied to a
specification function or states its result outright, and the theorems are about those.

How the files fit together:

- **Soft float** (`PowersOfTwo`, `Rounding`, `SoftFloat`, `SoftFloatArith`, `SoftFloatConvert`).
  Rounding is defined order-theoretically over the reals, among floats of every exponent; the bit
  algorithms are proved against that for all inputs.
- **Linear scan** (`Registers`, `LinearScanSpec`, `LinearScan`). Safety of the tables, and optimality
  of farthest-end eviction by an exchange invariant over all rival sets.
- **Graph colouring** (`MachineIR`, `Liveness`, `Interference`, `InterferenceGraph`, `Coalescing`,
  `CopyClasses`, `Colourability`, `Selection`, `GraphColouring`). From the CFG to a run-by-run
  simulation between the program before and after rewriting; when nothing is spilled, and why merging
  copies under the conservative test keeps a graph colourable, by simplify or at all.
- **Scheduling** (`ScheduleDag`, `ScheduleAccess`, `ScheduleMeaning`, `ScheduleOrder`,
  `ScheduleObserved`, `ScheduleOverflow`, `Schedule`, `ScheduleFlags`, `WaitInsertion`,
  `ScheduleWaits`). What an instruction touches by the ISA against what is recorded of it, exactly
  which edges the graph has, exactly when all orders it allows compute the same, what the list
  scheduler chooses, where waits end up, and that the scheduled block still is what wait insertion
  asks for.
- **Divergent control flow** (`DivergentCode`, `ExecMachine`, `ExecRegisters`, `ExecLowering`,
  `BlockOrder`, `DivergentFunction`, `LoopHeads`). A wave under EXEC masks against each lane alone,
  for nests of conditionals and loops, from arbitrarily numbered blocks to emitted code.
- **Dominators** (`Dominance`, `DepthFirst`, `DominatorProgress`, `DominatorTree`). The iteration is
  exact for every graph, and always stops in time.
- **Phi elimination** (`PhiElim`), **encoders** (`Encoding` against the hardware's
  reading in `Decoding`, `Rv64Code`, `Rv64Bits`), **SYSPRINT**
  (`Sysprint`), and two small shared modules, `Permutations` and `FiniteSets`.

Properties that turned out false of the code, with the exact condition under which they hold:

- Subtraction with a zero left operand returns the right operand unnegated
  (`SoftFloatArith.AddSigned`, `SoftFloatArith.ZeroMinusOne`).
- The scheduler loses an instruction exactly when a plain instruction touches a key again after
  defining it, because the edge then runs from the instruction to itself
  (`Schedule.Scheduler.ListSchedule`). Among emitted instructions those are the ones whose result is a
  virtual register with the key of a special register that the opcode touches
  (`ScheduleAccess.EmittedRevisits`); virtual register 65534 is one (`Schedule.LosesInstruction`).
- Only the last reader of a register has an edge to the next writer, so the scheduler can move an
  earlier reader behind it and change the result (`Schedule.TwoReaders`). All orders that the graph
  allows leave the same final state if and only if a path of required edges leads from every reader
  whose effect can be seen to every later writer (`ScheduleObserved.AllOrdersSameResult`); they run
  alike, instruction by instruction, if and only if this holds of every reader
  (`ScheduleOrder.AllOrdersRunAlike`).
- An instruction with more than 32 followers is pinned to the start of the block, in front of what it
  waits for, and so is the follower for which its list has no room; the result can change
  (`Schedule.HoistsStore`). Which ones these are follows from the block (`ScheduleDag.DagMarks`), and
  so does whether the order is an allowed one (`ScheduleOverflow.GoodIffHarmless`,
  `Schedule.ScheduleBlock`).
- s_add_i32 sets SCC, which the scheduler does not record; it can move the addition between a compare
  and the branch on it (`ScheduleFlags.FlagLost`). Which opcodes are recorded in full:
  `ScheduleAccess.CompleteIff`.
- Liveness is cut short by its limit of 200 passes exactly when something live out of a block is read
  from there only over 199 or more retreating edges (`Liveness.Solve`, `Liveness.BackwardNear`).
- A wait can end up behind the first terminator, so that control leaves the block with a load still
  out (`WaitInsertion.LateReturnAsks`). Every load is waited for in time if and only if nothing after
  the first terminator calls for a wait of a kind with a load still open (`WaitInsertion.InsertWaits`,
  `WaitInsertion.AllInTime`).
- Two open divergent regions share a clamped save pair once the nest is too deep for the scalar
  registers (`ExecRegisters.DistinctIffFits`, `ExecRegisters.SharedPairLosesLanes`).
- The counter that hands out scalar pairs for addresses is not moved past the save pairs, so on wide
  waves an address taken inside a region can overwrite the saved EXEC
  (`ExecRegisters.TakenPairLosesLanes`), and a save can overwrite an address
  (`ExecRegisters.SavedOverAddress`). Exactly when the saves survive: `ExecRegisters.DistinctIffApart`,
  `DivergentFunction.SeparateIff`.
- In a divergent loop the head is run in every round by the lanes that have left as well. They end as
  if alone exactly when the head does not change them (`LoopHeads.LeftLaneRepeats`;
  `ExecLowering.LanesAsIfAlone` asks for it).
- The test of the patch loop for address loads is four bytes short: it accepts a load whose second
  literal lies past the code (`Encoding.PatchAll`, `Encoding.CutShort`).
- Every negative inline constant is encoded wrongly: by the ISA's table -1 reads as 64 and the others
  read one too high (`Encoding.InlineReadsBack`). M0 is encoded as 124, which is the null register from
  GFX11 on (`Encoding.ScalarReadsBack`). Two different long immediates share one literal
  (`Encoding.LiteralShared`).
- Sequential phi copies differ from parallel ones exactly when a copy overwrites a later copy's
  source (`PhiElim.SequentialIffNoClobber`).
- The comment in `src/amdgpu/ra_ssa.c` says that unreachable blocks get high numbers; the code gives
  them the lowest ones (`DepthFirst.BuildRpo`). The dominator results do not depend on it.

## Model

| member | source | states |
|---|---|---|
| `Rounding.NearestEvenUnique` | runtime/device/soft_fp.c:130-150 | The rounding rule used throughout (no 24-bit float of any exponent is closer; ties go to the even significand) picks at most one float, so it is a definition and not a range of answers. |
| `Rounding.NearestIntegerIsNearestFloat` | runtime/device/soft_fp.c:130-150 | Rounding the scaled significand to the nearest even integer, and halving on a carry out, is rounding the real number to the nearest even float among floats of all exponents. |
| `SoftFloat.Unpack` | runtime/device/soft_fp.c:12-58 | Read off the pattern without its sign: an infinity is exactly 0x7F800000, a NaN anything above, a zero (subnormals flushed) anything below 0x00800000, and every other one is a normalised value; the sign is the top bit. |
| `SoftFloat.UnpackDenotes` | runtime/device/soft_fp.c:12-58 | What is unpacked is what IEEE 754 says the pattern stands for: sign, biased exponent and fraction as a real number, an infinity, or no number. |
| `SoftFloat.Pack` | runtime/device/soft_fp.c:60-86 | A normalised value packs to the one pattern that unpacks to it; a NaN packs to the canonical NaN. |
| `SoftFloat.PackUnpack` | runtime/device/soft_fp.c:12-86 | Round trip for all 2^32 patterns: packing undoes unpacking but for the NaN payload and the flush of subnormals to zero of the same sign. |
| `SoftFloat.CorrectlyRoundedUnique` | runtime/device/soft_fp.c:60-86 | For every nonzero real at most one pattern is its correct rounding (overflow to infinity and flush to signed zero included). |
| `SoftFloat.StickyIsHarmless` | runtime/device/soft_fp.c:130-139 | If a significand is exact, or is an odd multiple of the unit with its lost part less than that unit, then round bit and sticky bit read off it place the exact number on the same side of the halfway mark. |
| `SoftFloat.ShiftUp` | runtime/device/soft_fp.c:113-120 | The normalising loop brings the leading one to its place, keeps value and exponent in step, and its guard of 64 steps never cuts it short. |
| `SoftFloat.DrainDown` | runtime/device/soft_fp.c:121-128 | The right-shifting loop loses no information that rounding needs: every bit shifted out is kept in the bottom bit. |
| `SoftFloat.ApplyRounding` | runtime/device/soft_fp.c:137-147 | Adding the rounding bit, with the carry out of bit 23 moved to the exponent, gives significand and exponent of the rounded integer. |
| `SoftFloat.RoundNormal` | runtime/device/soft_fp.c:91-151 | For every wide significand that stands for an exact real (equal, or odd and within one), the packed result is that real correctly rounded; zero gives a signed zero. |
| `SoftFloatArith.AlignDown` | runtime/device/soft_fp.c:205-217 | Shifting the smaller operand down by any exponent difference leaves its exact value or an odd neighbour of it. |
| `SoftFloatArith.CombineStands` | runtime/device/soft_fp.c:205-231 | OR-ing the sticky bit into the aligned operand is harmless under addition, subtraction and cancellation: the combined significand stands for the exact sum, and is zero exactly when the sum is. |
| `SoftFloatArith.AddNormals` | runtime/device/soft_fp.c:198-246 | The sum of any two normalised operands is the exact real sum correctly rounded, and exact cancellation gives +0. |
| `SoftFloatArith.AddSigned` | runtime/device/soft_fp.c:164-246 | All pairs of patterns, both modes: NaN and infinity rules, zeros, and for finite operands the exact sum or difference correctly rounded if and only if the call is not a subtraction with a zero left operand (which returns the right operand unnegated). |
| `SoftFloatArith.ZeroMinusOne` | runtime/device/soft_fp.c:195 | The failing case is real: 0 - 1 comes out as +1, which is not the correct rounding of -1. |
| `SoftFloatArith.Multiply` | runtime/device/soft_fp.c:254-286 | All pairs: NaN, infinity and zero rules, and the exact real product correctly rounded for every pair of normalised operands. |
| `SoftFloatArith.Divide` | runtime/device/soft_fp.c:290-324 | All pairs: NaN, infinity and zero rules, and the exact real quotient correctly rounded for every pair of normalised operands, the remainder folded in as sticky. |
| `SoftFloatConvert.CompareCorrect` | runtime/device/soft_fp.c:336-360 | For every pair of patterns: -1 exactly when the first stands for less, 1 exactly when it stands for more or one of them is a NaN, else 0; the two zeros are equal and infinities are at the ends. |
| `SoftFloatConvert.RelationsCorrect` | runtime/device/soft_fp.c:326-399 | The entry points for equal, less, less or equal, greater, greater or equal and unordered: read off the sign of its answer, each relation is false of a NaN and otherwise the order of what the patterns stand for. |
| `SoftFloatConvert.UintToFloat` | runtime/device/soft_fp.c:401-424 | Every 32-bit unsigned integer converts to its correctly rounded float. |
| `SoftFloatConvert.IntToFloat` | runtime/device/soft_fp.c:426-432 | Every 32-bit signed integer, the most negative one included, converts to its correctly rounded float. |
| `SoftFloatConvert.FloatToIntCorrect` | runtime/device/soft_fp.c:442-458 | For every pattern: a NaN gives zero, an infinity the end of the signed range on its side, a number its integer part toward zero within the range. |
| `SoftFloatConvert.FloatToUintCorrect` | runtime/device/soft_fp.c:460-473 | The same for the unsigned range. |
| `LinearScanSpec.TakeDominates` | src/amdgpu/emit.c:708-721 | Keeping the newcomer when a register is free preserves the exchange invariant: at every later time, no set of intervals that fits the pool has had more of them end. |
| `LinearScanSpec.EvictDominates` | src/amdgpu/emit.c:723-751 | Swapping the farthest-ending active interval for the newcomer preserves the exchange invariant. |
| `LinearScanSpec.SelfSpillDominates` | src/amdgpu/emit.c:752-765 | Leaving out a newcomer that ends last preserves the exchange invariant. |
| `LinearScanSpec.DominatingIsLargest` | src/amdgpu/emit.c:702-777 | A set with the exchange invariant is at least as large as every set of candidates that fits the pool. |
| `LinearScan.Allocator.constructor` | src/amdgpu/emit.c:674-697 | The free stacks hold exactly the allowed registers, once each: no relay register s98 or s99, nothing below the reserved start, nothing from v250 or the MFMA window up. |
| `LinearScan.Allocator.ExpireOld` | src/amdgpu/emit.c:541-560 | Compacting the active list in place releases exactly the intervals that ended before the point, in order, each register to its own file's stack. |
| `LinearScan.FarthestIsMax` | src/amdgpu/emit.c:724-733 | The search returns an active interval of the file whose end no other exceeds. |
| `LinearScan.Allocator.FindFarthest` | src/amdgpu/emit.c:724-733 | The loop finds that interval and its first position. |
| `LinearScan.Allocator.AssignOne` | src/amdgpu/emit.c:708-777 | One arrival: register, spill flag, active list, free stacks and spill record after it. |
| `LinearScan.Allocator.EvictOrSpill` | src/amdgpu/emit.c:723-777 | With no register free, exactly one interval loses out, the farthest-ending one or the newcomer, and it is recorded. |
| `LinearScan.Allocator.RecordSpill` | src/amdgpu/emit.c:745-763 | The victim gets the next scratch slot of the 16-bit offset field while fewer than 512 are used. |
| `LinearScan.AssignGood` | src/amdgpu/emit.c:708-777 | Every outcome of an arrival keeps: free and active registers partition the pool, overlapping unspilled intervals of a file hold different registers, and the unspilled set is still a largest one. |
| `LinearScan.StepGood` | src/amdgpu/emit.c:702-777 | Expiry and assignment together keep that invariant for every interval in order of start. |
| `LinearScan.KeptFits` | src/amdgpu/emit.c:702-777 | After any prefix of the scan the unspilled intervals of a file never need more than its pool. |
| `LinearScan.KeptIsLargest` | src/amdgpu/emit.c:702-777 | Linear scan spills the minimum: no set of same-file intervals with at most K live at any point is larger than the set left unspilled. |
| `LinearScan.SpillIffPressure` | src/amdgpu/emit.c:702-777 | Nothing of a file is spilled if and only if its pressure never exceeds the pool. |
| `LinearScan.SlotsDistinct` | src/amdgpu/emit.c:745-763 | The scratch slots given out are distinct even where the 16-bit offset wraps. |
| `LinearScan.SlotsStep` | src/amdgpu/emit.c:745-763 | Every spilled vreg has exactly one slot of its own: all have one while at most 512 are spilled, and no two share one. |
| `LinearScan.Allocator.Scan` | src/amdgpu/emit.c:702-777 | The whole scan, for every interval list sorted by start and every pool: the invariant of AssignGood and the slot discipline hold at the end (and after each interval). |
| `MachineIR.BuildCfg` | src/amdgpu/emit.c:1234-1282 | The loops compute, for every block, the successor list that SuccessorsExact shows to be exactly the blocks control can go to. |
| `MachineIR.BranchIsSuccessor` | src/amdgpu/emit.c:1243-1275 | In a block whose terminators are a suffix with at most two targets, every branch anywhere in the suffix leads to a recorded successor. |
| `MachineIR.FallIsSuccessor` | src/amdgpu/emit.c:1276-1282 | If control can fall off the end of a block, the next block is a recorded successor. |
| `MachineIR.SuccessorsExact` | src/amdgpu/emit.c:1234-1282 | In a block of such terminators a recorded successor is exactly a block that one step of some machine leads to, from one of its instructions or from its end if control can get there. |
| `Liveness.SummaryIsTransfer` | src/amdgpu/emit.c:1294-1314 | Live-in from the two block summaries is live-in by going back over the instructions one at a time. |
| `Liveness.Summarise` | src/amdgpu/emit.c:1294-1314 | The forward loop computes the pair that SummaryIsTransfer shows to describe the block. |
| `Liveness.MergeSuccessors` | src/amdgpu/emit.c:1327-1331 | Or-ing in the successors' live-in sets, with a change flag that is exact. |
| `Liveness.OnePass` | src/amdgpu/emit.c:1321-1344 | A pass over the blocks backward; it reports no change exactly when the equations already hold everywhere. |
| `Liveness.PassAfter` | src/amdgpu/emit.c:1321-1344 | After k passes the sets hold exactly what some path reads with fewer than k edges to a block of the same or a lower number; one pass more sees one such edge more. |
| `Liveness.SolutionContainsPaths` | src/amdgpu/emit.c:1289-1345 | Every solution of the dataflow equations contains every register that some path reads before defining. |
| `Liveness.ShortPathsSuffice` | src/amdgpu/emit.c:1289-1345 | A live register is read on a path with fewer edges than there are blocks. |
| `Liveness.SettledIffNear` | src/amdgpu/emit.c:1316-1345 | k passes leave nothing to do if and only if everything live out of a block is read from there with fewer than k retreating edges. |
| `Liveness.Solve` | src/amdgpu/emit.c:1316-1345 | The iteration settles within its 200 passes if and only if everything live out of a block is read from there along a path with fewer than 199 retreating edges, hence always with at most 198 blocks; then live-in and live-out satisfy the equations and are exactly the path-live sets. Cut short, they hold exactly what is read with fewer than 200 retreating edges. |
| `Liveness.BackwardNear` | src/amdgpu/emit.c:1316-1345 | The limit is real: n blocks in a chain, each branching to the one before, settle in k passes if and only if n is at most k, so 200 such blocks do not settle before the limit stops them. |
| `Liveness.ExactIsLeast` | src/amdgpu/emit.c:1289-1345 | That result is contained in every other solution: it is the least one. |
| `InterferenceGraph.AddDef` | src/amdgpu/emit.c:1372-1406 | One definition adds edges to the registers of its file that are live after it, itself and a copy's source left out, and changes nothing else; degrees stay the exact number of edges. |
| `InterferenceGraph.BuildGraph` | src/amdgpu/emit.c:1347-1417 | The bit matrix has an edge exactly where one register is defined while the other, of the same file, is live after (a copy's source excepted), and every degree is the number of edges at its node. |
| `Coalescing.Find` | src/amdgpu/emit.c:1164-1171 | The path-halving loop returns the representative and changes no representative. |
| `Coalescing.CopyEdges` | src/amdgpu/emit.c:1176-1185 | The absorbing representative ends with the union of both nodes' edges to other representatives, its degree counted up by exactly the new ones. |
| `Coalescing.Coalesce` | src/amdgpu/emit.c:1173-1188 | After any merge of two representatives that are not joined, every original edge is an edge between two different representatives, and every edge between representatives comes from an original one. |
| `Colourability.MergeKeepsReducible` | src/amdgpu/emit.c:1506-1513 | The promise of the conservative test: if fewer than K neighbours of the merged node keep K or more neighbours, a graph that simplify can empty with low nodes only is still one after the merge. |
| `Colourability.MergeKeepsColourable` | src/amdgpu/emit.c:1506-1513 | And a graph that has a proper colouring at all still has one. |
| `Selection.RecomputeDegrees` | src/amdgpu/emit.c:1560-1573 | Only representatives stay in the graph, each with the exact number of its neighbours there. |
| `Selection.RemoveNode` | src/amdgpu/emit.c:1588-1602 | Taking a node out keeps every degree exact. |
| `Selection.FindLow` | src/amdgpu/emit.c:1582-1590 | The first node with degree below K of its file, or proof that there is none. |
| `Selection.Limits.EnoughColours` | src/amdgpu/emit.c:1500-1504 | The degree bound K of a file is the number of colours that select tries for it, unless the vector registers are capped. |
| `Selection.PickSpill` | src/amdgpu/emit.c:1604-1625 | Comparing by cross-multiplication in 32 bits finds a node of the graph, one of least cost per degree whenever no product overflows. |
| `Selection.Simplify` | src/amdgpu/emit.c:1575-1637 | The graph empties onto the stack; exactly the nodes pushed as low had fewer than K neighbours left; and only low nodes are pushed if and only if every part of the graph has one. |
| `Selection.AllLowReduces` | src/amdgpu/emit.c:1575-1637 | One half of that: a stack of low nodes proves that every nonempty part of the graph has a low node. |
| `Selection.UsedColours` | src/amdgpu/emit.c:1655-1670 | The colours taken around a node, through representatives. |
| `Selection.FirstFree` | src/amdgpu/emit.c:1672-1710 | The first colour of the range that is not taken, or proof that all are. |
| `Selection.LowFindsColour` | src/amdgpu/emit.c:1639-1711 | A node pushed with degree below K always finds a free colour. |
| `Selection.SelectOne` | src/amdgpu/emit.c:1647-1711 | Colouring one popped node keeps the colouring proper so far, and a node left without a colour has neighbours of every colour of its file. |
| `Selection.Select` | src/amdgpu/emit.c:1639-1711 | Every node is coloured properly or marked spilled; no low-degree node is spilled, and around a spilled node every colour of its file is taken. |
| `GraphColouring.CountCrowd` | src/amdgpu/emit.c:1538-1554 | The loop of the conservative test counts exactly the neighbours of either node whose recorded degree, less one for common neighbours, is at least K. |
| `GraphColouring.MergeDegrees` | src/amdgpu/emit.c:1173-1188 | The degrees kept while merging, which the source updates only at the absorbing node, never fall below the true ones. |
| `GraphColouring.MergeIsConservative` | src/amdgpu/emit.c:1506-1557 | So the test on recorded degrees is safe: a merge it allows keeps the graph reducible if it was, and colourable if it was. |
| `GraphColouring.MergeCopy` | src/amdgpu/emit.c:1520-1557 | One copy: its classes are merged exactly when they are two, of one file, unjoined, and fewer than K of their neighbours have K or more; the merged node has the edges of both and its degree is counted up by the new ones; otherwise the graph stays as it is. The graph stays consistent, and reducible and colourable if it was. |
| `GraphColouring.MergeCopies` | src/amdgpu/emit.c:1506-1558 | The steps of MergeCopy for all copies of the function, each once and in order, from the graph as built to the graph as left; registers are merged only along chains of copies within one file. |
| `CopyClasses.MergedByCopies` | src/amdgpu/emit.c:1520-1557 | Merging the classes of a copy's two registers keeps every register linked to its representative by copies of the function within one file. |
| `GraphColouring.LiveOuts` | src/amdgpu/emit.c:1489-1493 | CFG and liveness composed: it settles exactly when the flow of the function meets the condition of Solve, and then the live-out sets satisfy the inequalities of the machine's real control flow, and the live-in sets are exactly the registers some path reads before writing. |
| `GraphColouring.FewBlocksSettle` | src/amdgpu/emit.c:1316-1345 | Every function of at most 198 blocks settles. |
| `GraphColouring.ColourMerged` | src/amdgpu/emit.c:1560-1719 | Simplify, select and hand-out compose: registers joined in the original graph have different colours within range or one of them is spilled; nothing is spilled if the merged graph is reducible; a spilled register's class has interfering registers of every colour. |
| `GraphColouring.HandOut` | src/amdgpu/emit.c:1713-1719 | Every coalesced node gets its representative's colour or spill flag. |
| `GraphColouring.SelectedIsGood` | src/amdgpu/emit.c:1639-1719 | A proper colouring of the merged graph, handed out, is a proper colouring of the original one. |
| `GraphColouring.Allocate` | src/amdgpu/emit.c:1419-1719 | One round of the allocator: colours in range, a spill reported exactly when some register has no colour, no two interfering registers sharing a place, liveness safe and exact for the simulation; nothing is spilled whenever every set of registers has one that interferes with fewer than K others of the set, however many copies were merged; and a register is spilled only if all colours of its file are taken by registers interfering with its class, where the classes come from running MergeCopy over the copies in order, starting with the exact graph. |
| `GraphColouring.FewNeighboursIsSparse` | src/amdgpu/emit.c:1575-1602 | That condition holds in particular when every register interferes with fewer registers than its file has colours. |
| `Interference.WriteAgrees` | src/amdgpu/emit.c:1363-1406 | Writing a definition keeps virtual and physical values in agreement on everything live after, even though a copy's source and destination have no edge. |
| `Interference.MeetsIsNeeded` | src/amdgpu/emit.c:1372-1406 | And no edge is superfluous: if a register shares the place of the one defined, some contents are lost if and only if the two meet (live after, of one file, not the source of the copy). |
| `Interference.StepRelated` | src/amdgpu/emit.c:563-620 | One step of the virtual program is one step of the rewritten one, branches included. |
| `Interference.RunRelated` | src/amdgpu/emit.c:563-620 | Allocation preserves meaning: after any number of steps, on any machine semantics, both programs are at the same point with the same world and every live register has its value in its place. |
| `GraphColouring.StartRelated` | src/amdgpu/emit.c:1419-1719 | Runs start in agreement when the entry block reads no register it does not define. |
| `GraphColouring.AllocationPreservesMeaning` | src/amdgpu/emit.c:1419-1719 | The composed theorem: if no path from the entry reads a register before writing it, then with what Allocate promises of a round that spills nothing the function and its rewritten form run in step, from any register contents and for any number of steps. |
| `GraphColouring.AllocateAndRewrite` | src/amdgpu/emit.c:1419-1719 | A round that spills nothing, on a function whose liveness settles, meets the hypotheses of that theorem, and such a round happens whenever every set of registers has one that fits. |
| `ScheduleDag.Builder.AddEdge` | src/amdgpu/sched.c:213-225 | An edge is added once; past 32 successors both ends are marked instead. |
| `ScheduleDag.AddJustified` | src/amdgpu/sched.c:213-225 | Adding a required edge leaves only required ones, and both marks of an edge refused are right: its source has more than 32 followers, its target comes after 32 others of one source. |
| `ScheduleDag.Builder.TrackDef` | src/amdgpu/sched.c:228-237 | A definition links to the last writer and, when it counts, the last reader. |
| `ScheduleDag.Builder.TrackUse` | src/amdgpu/sched.c:240-245 | A use links to the last writer. |
| `ScheduleDag.AccessStep` | src/amdgpu/sched.c:228-245 | Looking at one more access, from any state, keeps: tables name the last writer and reader of each key, and the graph has exactly the flow, output, anti and self edges that the accesses so far require. |
| `ScheduleDag.MemoryStep` | src/amdgpu/sched.c:375-388 | Store-to-store, load-to-store and store-to-load edges are complete after each memory operation. |
| `ScheduleDag.Builder.TrackAccesses` | src/amdgpu/sched.c:303-373 | All accesses of one instruction, in the order of the source. |
| `ScheduleDag.Builder.TrackMemory` | src/amdgpu/sched.c:375-388 | The memory edges of one instruction. |
| `ScheduleDag.DagMarks` | src/amdgpu/sched.c:213-225 | The marks of the finished graph are determined by the block: an instruction is marked if and only if it has more than 32 followers, or follows some instruction that 32 earlier ones follow already. |
| `ScheduleDag.BuildDag` | src/amdgpu/sched.c:249-392 | The finished graph has exactly the required edges as long as none is marked, and exactly the marks of DagMarks; its epochs and barrier list are right; it gives up exactly above 64 barriers. |
| `ScheduleDag.DagExact` | src/amdgpu/sched.c:249-392 | Without marks an edge is there if and only if the block requires it: a read or write after the last write, a write after the last read, a memory operation, a key looked at again. |
| `ScheduleAccess.AccessesExact` | src/amdgpu/sched.c:303-373 | What is recorded of an instruction is what the ISA says it reads and writes: its operands, the second register of a scalar pair, the further registers of a wide result, and VCC, EXEC and SCC by opcode; only the SCC of s_add_i32, s_addc_u32 and s_not, and the second register of a 64-bit scalar result, are missing. |
| `ScheduleAccess.CompleteIff` | src/amdgpu/sched.c:166-175 | Everything an instruction touches is recorded if and only if it is none of these. |
| `ScheduleAccess.KeysApart` | src/amdgpu/sched.c:31-40 | Different registers have different keys, all inside the tables, as long as virtual registers stay below the keys of the physical ones. |
| `ScheduleAccess.EmittedRevisits` | src/amdgpu/sched.c:303-373 | An instruction with at most one result, in a register, looks at a key again after defining it if and only if the result is a virtual register numbered like VCC, EXEC or SCC where the opcode reads or writes that by the ISA and build_dag records it. |
| `ScheduleAccess.LastVirtualRegister` | src/amdgpu/sched.c:33-39 | Such a register can be given out: a scalar addition into virtual register 65534 defines the key of SCC twice. |
| `ScheduleOrder.WriteFirst` | src/amdgpu/sched.c:228-245 | A path of required edges leads from a write to every later read or write of its key in the epoch, through the chain of last writers. |
| `ScheduleOrder.OneReaderIsLed` | src/amdgpu/sched.c:228-245 | With at most one reader between two writes, a path leads from every read to every later write of its key. |
| `ScheduleOrder.StoreFirst` | src/amdgpu/sched.c:375-388 | A path leads from a store to every later load or store of the epoch. |
| `ScheduleOrder.FollowsKeeps` | src/amdgpu/sched.c:249-572 | If every reader is led to the later writers of its key, then in any order the graph allows, instructions that changed places are plain, of one epoch, and independent. |
| `ScheduleOrder.AllOrdersRunAlike` | src/amdgpu/sched.c:228-245 | All orders that the graph allows run like the block itself, every instruction finding the same operands under every local meaning, if and only if a path of required edges leads from every reader to every later writer of its key in the epoch. |
| `ScheduleObserved.AllOrdersSameResult` | src/amdgpu/sched.c:228-245 | All orders that the graph allows leave the same final state if and only if such a path leads from every reader whose effect can be seen (in memory, at the end of the block, by an instruction that is not plain, or through another such reader). |
| `ScheduleObserved.UnseenReader` | src/amdgpu/sched.c:228-245 | The two conditions differ: a reader that writes nothing may go astray without any final state changing. |
| `ScheduleOverflow.GoodIffHarmless` | src/amdgpu/sched.c:468-473 | Pinning marked instructions to the start of the block keeps to what the block requires if and only if the plain ones among them are all of the first epoch and wait for nothing that is not at the start as well; marks are those that the block itself determines. |
| `ScheduleMeaning.Swap` | src/amdgpu/sched.c:475-572 | Independent plain instructions commute, for every meaning local to the recorded reads and writes. |
| `ScheduleMeaning.SameMeaning` | src/amdgpu/sched.c:475-572 | Every permutation that keeps conflicting pairs in place has the same final registers, memory and mask. |
| `ScheduleMeaning.KeptRunsSame` | src/amdgpu/sched.c:475-572 | And every instruction finds there what it found in the old order. |
| `Schedule.CountPreds` | src/amdgpu/sched.c:411-421 | Each count is the number of nodes with an edge to it. |
| `Schedule.ComputePriorities` | src/amdgpu/sched.c:396-407 | The priority is the latency plus the largest priority among successors. |
| `Schedule.Scheduler.PickBest` | src/amdgpu/sched.c:507-512 | An entry of highest priority, the first such. |
| `Schedule.Scheduler.Tell` | src/amdgpu/sched.c:521-535 | After a pick the counts are exact for the longer order and the queue holds exactly the instructions of the epoch that wait for nothing. |
| `Schedule.Scheduler.PlacePinned` | src/amdgpu/sched.c:482-492 | What is pinned to the start is placed first, all of it, in order. |
| `Schedule.Scheduler.Drain` | src/amdgpu/sched.c:505-536 | Draining places only what has all its sources placed, always an instruction of highest priority among the ready ones, and ends with nothing of the epoch ready. |
| `Schedule.Drained` | src/amdgpu/sched.c:503-562 | If no plain instruction waits for itself, an empty queue means the whole epoch is placed. |
| `Schedule.Scheduler.PlaceTerminators` | src/amdgpu/sched.c:564-572 | Terminators come last, all of them, in order; one that was pinned to the start as well is placed again. |
| `Schedule.Scheduler.ListSchedule` | src/amdgpu/sched.c:475-572 | The order follows the graph and takes the ready instruction with the longest way to the end first; it is a permutation of the block if and only if no terminator is pinned to the start and no plain instruction revisits a key it has defined. |
| `Schedule.ScheduleBlock` | src/amdgpu/sched.c:449-572 | For every block of the assumed shape, all stated from the block: when it is left alone, and when a list of successors overflows (some instruction with more than 32 followers). Without overflow no instruction is lost or doubled iff no plain instruction revisits a defined key, and then the order is one the requirements allow, chosen by longest way to the end. With overflow the order is a permutation iff no terminator is marked and no unmarked plain instruction revisits a defined key; what is marked then comes first, and the order is allowed iff the block is harmless in the sense of GoodIffHarmless. An allowed order leaves the final state of the old one if every seen reader is led to the later writers, for every semantics of the recorded accesses. |
| `Schedule.TwoReaders` | src/amdgpu/sched.c:240-245 | Without the condition on readers meaning changes: on a three-instruction block (two readers of a register, then a load of it) the scheduler returns the order 1, 2, 0, and a run of it ends in a different state. |
| `Schedule.LosesInstruction` | src/amdgpu/sched.c:475-572 | And an instruction is lost: the block with that scalar addition comes back without being a permutation. |
| `Schedule.HoistsStore` | src/amdgpu/sched.c:468-473 | Pinning changes results: a store of a value just computed, followed by 33 loads, is moved in front of the computation, and a run of the new order ends in a different state. |
| `ScheduleFlags.ProducerRequired` | src/amdgpu/sched.c:228-313 | The producer of a register is required before its next reader: a compare before the select or branch on its flag. |
| `ScheduleFlags.DependenceKept` | src/amdgpu/sched.c:249-572 | In every allowed order, an instruction that writes a register by the ISA stays before every later one that reads or writes it, provided neither touches something that is not recorded. |
| `ScheduleFlags.MaskKept` | src/amdgpu/sched.c:265-281 | Whatever changes EXEC keeps its place among all other instructions, so the mask a vector instruction runs under is the same. |
| `ScheduleFlags.FlagLost` | src/amdgpu/sched.c:166-175 | The failing case: s_add_i32, a compare and the branch on it are scheduled as compare, addition, branch, and the branch then reads the flag the addition left. |
| `WaitInsertion.Inserter.CheckReads` | src/amdgpu/sched.c:610-653 | After looking at the reads, every pending key and every unwaited load has its wait requested, and so has a load behind an open store; on an orderly block nothing else has. |
| `WaitInsertion.Inserter.CheckBarrier` | src/amdgpu/sched.c:655-667 | A barrier asks for the waits of all loads issued so far. |
| `WaitInsertion.Inserter.EmitWait` | src/amdgpu/sched.c:669-687 | A wait makes good for all loads of its kind already issued, and only those are marked; the fields follow the specification state. |
| `WaitInsertion.Inserter.Issue` | src/amdgpu/sched.c:689-722 | Issuing keeps the bookkeeping right and drains scalar loads at ten. |
| `WaitInsertion.LoadInTime` | src/amdgpu/sched.c:724-751 | Trailing waits stand before the first terminator: a load ends up waited for there exactly when it was already or its kind has a trailing wait. |
| `WaitInsertion.AllInTime` | src/amdgpu/sched.c:574-753 | From the block alone: every load has a wait before the first terminator if and only if no instruction after that terminator calls for a wait of a kind with a load still open. |
| `WaitInsertion.QuietEnd` | src/amdgpu/sched.c:610-653 | In particular if no terminator after the first reads a loaded key. |
| `WaitInsertion.LateReturnAsks` | src/amdgpu/sched.c:610-687 | The failing case: a scalar load of a return address, a conditional branch, and a return through it; the wait goes between the two terminators. |
| `WaitInsertion.InsertWaits` | src/amdgpu/sched.c:574-753 | The instructions come out unchanged and in order; every read of a vector load's key has its wait, and every load that must not overtake stores has one after each store before it, with no assumption; with each key loaded once and not read before, every read has a wait of its load's kind and every barrier one for each load before it; never more than ten scalar loads are outstanding; and on such a block with its terminators last, every load is waited for before the first terminator if and only if nothing after it calls for a wait of a kind with a load still open. |
| `ScheduleWaits.OrderlyKept` | src/amdgpu/sched.c:449-753 | An allowed order keeps what wait insertion asks of a block: terminators last, each key loaded once and not read before its load. |
| `ScheduleWaits.ScheduleAndWait` | src/amdgpu/sched.c:449-753 | Scheduling and wait insertion on one block: the scheduled instructions come out in their order with at most ten scalar loads open; if the order is allowed and the block orderly, every read has the wait of its load, every load is waited for before the first terminator iff nothing after it calls for a wait of a kind still open, and with every seen reader led the final state is that of the block. |
| `DivergentCode.LaneRegion` | src/amdgpu/isel.c:154-219 | A lane branching alone through the laid-out blocks of a nest of conditionals and loops does what the nest says, if it leaves its loops. |
| `DivergentCode.LaneLoop` | src/amdgpu/isel.c:154-219 | In a loop: round by round from the head through the body and back, and out when the condition fails. |
| `DivergentCode.LaneAlone` | src/amdgpu/isel.c:154-219 | The same for a whole function. |
| `DivergentCode.LaneEnd` | src/amdgpu/isel.c:154-219 | What a lane ends with is determined by where it starts. |
| `ExecMachine.RegionThen` | src/amdgpu/isel.c:1817-1860 | If without else under save, mask and restore: active lanes end as if alone, EXEC as before, outer save registers untouched. |
| `ExecMachine.RegionElse` | src/amdgpu/isel.c:1817-1860 | If with else, both arms run one after the other under the mask and its complement, with both skip branches. |
| `ExecMachine.LoopRuns` | src/amdgpu/isel.c:1747-1781 | A divergent loop under save, mask, restore before the branch back, and skip: it ends when the last lane has left, each lane is as it left the loop alone, and the mask of before the loop is in its register; by induction over rounds. |
| `ExecMachine.RegionWhile` | src/amdgpu/isel.c:1747-1860 | The loop with its restore behind it, and what follows. |
| `ExecMachine.Region` | src/amdgpu/isel.c:1747-1860 | Every nest of conditionals and loops, whatever mask it starts with, operations that take or use the scalar pair of an address included: active lanes end as if alone, EXEC as before, outer save registers untouched. |
| `ExecMachine.RunEnd` | src/amdgpu/isel.c:1747-1860 | And so is what a wave ends with: the results below speak of the only end there is. |
| `ExecRegisters.NarrowDistinct` | src/amdgpu/isel.c:1839-1843 | On narrow waves no save register is written while its region is open, whatever addresses are taken. |
| `ExecRegisters.DistinctIffFits` | src/amdgpu/isel.c:1827-1838 | On wide waves simultaneously open regions of a nest that takes no addresses have save pairs of their own if and only if the nest has depth at most one or its deepest pair lies below the register limit. |
| `ExecRegisters.DistinctIffApart` | src/amdgpu/isel.c:1676-1725 | On wide waves, within the register limit, no save pair is written while its region is open if and only if, counting the pairs taken for addresses since the first region opened, none with number d is taken while a region of depth d is open. |
| `ExecRegisters.SharedPairLosesLanes` | src/amdgpu/isel.c:1833-1838 | When two open regions share the clamped pair, EXEC after the outer merge is smaller than before: lanes are lost. |
| `ExecRegisters.TakenPairLosesLanes` | src/amdgpu/isel.c:1829-1833 | The first address taken inside the first region overwrites the saved EXEC: a lane that was off in the arm is still off after the merge. |
| `ExecRegisters.SavedOverAddress` | src/amdgpu/isel.c:1829-1833 | And the other way round: a second region saves EXEC over an address taken before it, and the use behind it finds the mask. |
| `LoopHeads.LeftLaneRepeats` | src/amdgpu/isel.c:1747-1781 | A lane that leaves a loop while another goes on runs the head of the loop once more: it ends as if alone if and only if the head does not change it. |
| `ExecLowering.EmitsNest` | src/amdgpu/isel.c:1727-1783 | What the selector emits for the blocks of a nest (suppressed branches, flips, restores at merges and before branches back, fall-throughs) is the code proved above, and the region stack is as before. |
| `ExecLowering.BackBranch` | src/amdgpu/isel.c:1747-1781 | From every wave, what is emitted for a branch back switches on the lanes saved by the regions opened at or after its target, changes nothing else, and goes there. |
| `ExecLowering.Selector.FlipRegions` | src/amdgpu/isel.c:2684-2697 | Flips at a block start, outermost first, with the arm marked as left. |
| `ExecLowering.Selector.CloseRegions` | src/amdgpu/isel.c:2699-2710 | Restores at a merge, innermost first, each closing its region. |
| `ExecLowering.Selector.BranchTo` | src/amdgpu/isel.c:1727-1783 | Suppression, restores before a back edge, and the branch that is left out when it would fall through. |
| `ExecLowering.Selector.CondBranch` | src/amdgpu/isel.c:1817-1860 | Compare, save and mask, skip; the region is pushed with its save register; the first branch of a wide wave fixes the base of the save pairs at the counter as it stands. |
| `ExecLowering.Selector.TakeAddress` | src/amdgpu/isel.c:1676-1725 | The next even scalar pair goes to the address and the counter moves past it; past the limit nothing happens. |
| `ExecLowering.Selector.Operations` | src/amdgpu/isel.c:2732-2740 | The operations of a block in order, the counter threaded through. |
| `ExecLowering.Selector.Select` | src/amdgpu/isel.c:2663-2710 | The loop over blocks emits block by block what EmitsNest speaks about. |
| `ExecLowering.LanesAsIfAlone` | src/amdgpu/isel.c:1727-1860 | EXEC-mask lowering is per-lane correct, for every nest of conditionals and loops: run from its first block, the selected program ends, EXEC is what it was, and every active lane is where it would be had it run alone through the source blocks. The lanes leave their loops, a loop's head does not change a lane that has left, no save register is written while its region is open and no address while it is used. |
| `BlockOrder.BuildBlockOrder` | src/amdgpu/isel.c:154-219 | For every function of at most 8192 blocks the order is a permutation that starts at the entry, begins with the depth-first walk, and ends with the other blocks in order. |
| `BlockOrder.NestOrder` | src/amdgpu/isel.c:154-219 | Whatever numbers the blocks of a nest have, within the stack bound the walk places every then-region whole before its else-region, and that before the merge, and every loop head before its body and that before the block behind, at every level. |
| `DivergentFunction.LowerFunction` | src/amdgpu/isel.c:2646-2710 | Ordering, numbering and selection composed: a nest is selected in its layout order whatever numbers its blocks were created with. |
| `DivergentFunction.SeparateIff` | src/amdgpu/isel.c:1817-1860 | When that is so: on narrow waves always for the saves; on wide waves within the register limit exactly when no address takes pair number d while a region of depth d is open; without addresses exactly when the deepest save pair is below the limit. |
| `DivergentFunction.LowerFunctionCorrect` | src/amdgpu/isel.c:2646-2710 | The end-to-end statement: for every nest within the depth limits that keeps saves and addresses apart and whose loop heads settle, every lane of the selected function that leaves its loops ends as if alone. |
| `DominatorTree.BuildPreds` | src/amdgpu/ra_ssa.c:176-206 | The lists hold exactly the blocks that branch to each block. |
| `DepthFirst.DepthFirstSearch` | src/amdgpu/ra_ssa.c:212-252 | The explicit-stack search visits exactly the reachable blocks; neither its step limit nor its stack limit is reached; every visited block but the entry has a predecessor with a smaller number. |
| `DepthFirst.BuildRpo` | src/amdgpu/ra_ssa.c:212-264 | The two numberings are inverse, reachable blocks come after unreachable ones (the reverse of what the comment at line 254 says), and every reachable block is entered from one of smaller number. |
| `Dominance.UpdateChain` | src/amdgpu/ra_ssa.c:314-317 | Changing one table entry redirects the chains through that block and no others. |
| `Dominance.UpdateInv` | src/amdgpu/ra_ssa.c:286-317 | Moving an entry to the meeting point of the known predecessors keeps every dominator on every chain, stale entries below it included. |
| `Dominance.ChainIsDominators` | src/amdgpu/ra_ssa.c:269-320 | At a fixpoint the chain of a reachable block is exactly its set of dominators. |
| `DominatorProgress.ChainShrinks` | src/amdgpu/ra_ssa.c:282-317 | In numbering order no update ever puts a block back on a chain, although an update moves the chains of all blocks below it at once. |
| `DominatorProgress.OrderlyStep` | src/amdgpu/ra_ssa.c:282-317 | The reason: at every visit each known block is backed by a predecessor of smaller number that shares the part of its chain still to be visited; every visit keeps this. |
| `DominatorProgress.AvoidsStep` | src/amdgpu/ra_ssa.c:279-318 | Progress: after k passes, if some path to a block avoids d with fewer than k retreating edges, the block is known and d is off its chain. |
| `DominatorProgress.NothingToMove` | src/amdgpu/ra_ssa.c:279-318 | After as many passes as there are blocks, no visit changes an entry. |
| `DominatorTree.Climb` | src/amdgpu/ra_ssa.c:306-309 | Each inner loop removes one block from the difference of the two chains per step. |
| `DominatorTree.Intersect` | src/amdgpu/ra_ssa.c:302-311 | The two fingers always meet before the budget of twice the number of blocks runs out, at the block whose chain is the intersection of the two chains. |
| `DominatorTree.MeetOf` | src/amdgpu/ra_ssa.c:286-312 | First known predecessor and intersection with the others: the meeting point of all known predecessors, or none. |
| `DominatorTree.Visit` | src/amdgpu/ra_ssa.c:283-317 | One visit keeps the table's invariant, makes a reachable block known and never an unreachable one. |
| `DominatorTree.OnePass` | src/amdgpu/ra_ssa.c:281-318 | A pass that changes nothing proves the table settled; a pass adds one retreating edge to what is accounted for; from then on that all are, nothing changes. |
| `DominatorTree.ComputeDominators` | src/amdgpu/ra_ssa.c:269-320 | For every flow graph with two-way branches, unreachable blocks included: the iteration stops on an unchanged pass, never on its limit of four times the number of blocks, and then the chain of each block is exactly its set of dominators, and unreachable blocks have no entry. |
| `PhiElim.Module.Collect` | src/amdgpu/emit.c:49-70 | The moves of all phis in order; phis become no-operations and nothing else changes. |
| `PhiElim.Module.InsertionPoint` | src/amdgpu/emit.c:90-98 | The start of the trailing terminators. |
| `PhiElim.Module.InsertIn` | src/amdgpu/emit.c:83-125 | Making room in the one flat list and moving later blocks up leaves every other block's slice as it was. |
| `PhiElim.Module.Eliminate` | src/amdgpu/emit.c:45-127 | Every block afterwards is its old sequence, phis made no-operations, with exactly its copies just before its trailing terminators. Run, it does what it did and then, from every state and whatever its other instructions do, every phi fed from it has the value its argument had and nothing else has changed, if and only if no phi's register is overwritten before a later phi of that edge reads it. |
| `PhiElim.LoweredTakes` | src/amdgpu/emit.c:49-119 | The same from the list of instructions alone: which phi takes which value along which edge, and in which order. |
| `PhiElim.SequentialIffNoClobber` | src/amdgpu/emit.c:106-119 | Copies run one after the other give every phi destination its source's value, from every state, if and only if no copy overwrites the source of a later one. |
| `Encoding.InlineReadsBack` | src/amdgpu/encode.c:36-43 | By the ISA's table of source operands an inline constant reads back as itself if and only if it is not negative; -1 reads as 64, every other negative one as the next higher number. |
| `Encoding.InlineExact` | src/amdgpu/encode.c:16-22 | The numbers encoded without a literal are exactly those the ISA has a code for. |
| `Encoding.ScalarReadsBack` | src/amdgpu/encode.c:24-49 | By the ISA's table a scalar source field reads as the operand it was made from exactly for the registers below 102, the special registers (M0 only before GFX11), the inline constants that are not negative, and the long immediate that is emitted. |
| `Encoding.VectorReadsBack` | src/amdgpu/encode.c:51-75 | The same for the source field of the vector formats. |
| `Encoding.LiteralShared` | src/amdgpu/encode.c:24-80 | Each long immediate among the sources is the one emitted exactly when all of them are equal; otherwise the last overwrites the others. |
| `Encoding.Sop2Decodes` | src/amdgpu/encode.c:120-134 | The fields of a SOP2 word read back, the opcode exactly when the destination fits seven bits or the opcode is odd. |
| `Encoding.ShortSays` | src/amdgpu/encode.c:120-330 | Decoding what is emitted for a SOP1, SOP2, SOPC, SOPP, VOP1, VOP2 or VOPC instruction by the ISA's field tables gives back its format, opcode, destination, first and second source and literal exactly when the format can express them. |
| `Encoding.GaddrDecodes` | src/amdgpu/encode.c:523-559 | The five words of an address load decode as getpc into its pair, add with a literal to the low half, add with carry and a literal to the high half. |
| `Encoding.AgreesIff` | src/amdgpu/encode.c:584-680 | Pass 1 and pass 2 give one instruction the same size if and only if its long immediates are exactly where its encoder looks, its opcode is in the table and its address load is well formed. |
| `Encoding.ExpectedSize` | src/amdgpu/encode.c:584-612 | The size computation of pass 1. |
| `Encoding.PassesAgree` | src/amdgpu/encode.c:569-685 | If the passes agree on every instruction they agree on the offset of every instruction and block. |
| `Encoding.BranchLands` | src/amdgpu/encode.c:644-653 | A branch word lands on its target exactly when the displacement fits 16 bits. |
| `Encoding.EncodeFunction` | src/amdgpu/encode.c:565-685 | Both passes: the code is as long as measured, block offsets are where the blocks are, every branch lands on its block's first word iff in range, and at the place of every instruction of a short format, and of every address load, the code decodes to what ShortSays and GaddrDecodes say of it. |
| `Encoding.PatchedAddress` | src/amdgpu/emit.c:3035-3052 | The patched low and high literals, added with carry to the program counter, give the literal's full 64-bit address. |
| `Encoding.PatchAddress` | src/amdgpu/emit.c:3035-3052 | Patching makes the address load compute its goal and touches no other word. |
| `Encoding.LoadLeaves` | src/amdgpu/emit.c:3035-3052 | Run by the hardware from any state, a patched address load leaves the 64-bit address of its literal in its register pair and no other register changed. |
| `Encoding.PatchAll` | src/amdgpu/emit.c:3035-3052 | The whole loop: it fails exactly when a reference is lost by its test; otherwise an address load leaves the 64-bit address of its literal if and only if both its literals are inside the code, which the test does not ensure; if the words there decode as an address load, running them leaves that address; no other word has changed. |
| `Encoding.CutShort` | src/amdgpu/emit.c:3041 | The failing case: a load four bytes short of its second literal at the end of the code is accepted, and the code does not load the address. |
| `Rv64Code.IRoundTrip` | src/cpu/rv64_emit.c:40-41 | I-format words read back by the ISA's rules: opcode, funct3, both registers and every 12-bit immediate. |
| `Rv64Code.URoundTrip` | src/cpu/rv64_emit.c:46-47 | U-format words read back. |
| `Rv64Code.SRoundTrip` | src/cpu/rv64_emit.c:42-43 | S-format words read back: opcode, funct3, both source registers and every 12-bit immediate. |
| `Rv64Code.BRoundTrip` | src/cpu/rv64_emit.c:44-45 | B-format words read back: opcode, funct3, both source registers and every even 13-bit offset. |
| `Rv64Code.JRoundTrip` | src/cpu/rv64_emit.c:48-49 | A jump word reads back as a jump by exactly the given distance if and only if jfits accepts it. |
| `Rv64Code.LoadImmediate` | src/cpu/rv64_emit.c:155-160 | The words of e_li leave exactly v, sign-extended, whatever was in the register, for every v from -2^31 to 0x7FFFF7FF; it is one word exactly when v has 12 bits or is a multiple of 4096. |
| `Rv64Code.Assembler.JumpToBlock` | src/cpu/rv64_emit.c:415-419 | A placeholder jump and its fixup. |
| `Rv64Code.Assembler.PatchJump` | src/cpu/rv64_emit.c:407-411 | A distance that fits is patched in, any other is counted as an error and changes no code. |
| `Rv64Code.Assembler.ResolveFixups` | src/cpu/rv64_emit.c:831-836 | No error is counted iff all distances fit, and then every recorded jump goes exactly to its block and no other word changes. |
| `Rv64Bits.PairsStep` | src/cpu/rv64_emit.c:170-172 | The first fold counts ones in pairs. |
| `Rv64Bits.FoursStep` | src/cpu/rv64_emit.c:173-176 | The second fold counts in fours. |
| `Rv64Bits.EightsStep` | src/cpu/rv64_emit.c:177-178 | The third fold counts in bytes. |
| `Rv64Bits.Popc32` | src/cpu/rv64_emit.c:168-181 | The sequence gives the number of ones of every 32-bit word. |
| `Rv64Bits.Ctz32` | src/cpu/rv64_emit.c:517-521 | The sequence gives the number of trailing zeros of every 32-bit word, 32 for zero. |
| `Rv64Bits.SmearedOnes` | src/cpu/rv64_emit.c:523-526 | Smearing leaves ones from the highest one down. |
| `Rv64Bits.Clz32` | src/cpu/rv64_emit.c:522-529 | The sequence gives the number of leading zeros of every 32-bit word, 32 for zero. |
| `Rv64Bits.Brev32Reverses` | src/cpu/rv64_emit.c:184-197 | Five swaps move bit i to bit 31 - i. |
| `Sysprint.Registry.Intern` | runtime/host/sysprint.c:23-41 | A usable name gets a number that keeps naming it, the same one each time; numbers given out before keep their names; none is given exactly when the name is unusable or new with the table full. |
| `Sysprint.Registry.RegisterSink` | runtime/host/sysprint.c:65-89 | A sink is added last, and matches what its pattern means: an exact name, or a prefix followed by *. |
| `Sysprint.Registry.MatchSink` | runtime/host/sysprint.c:91-109 | The first sink that matches. |
| `Sysprint.ParseAppend` | runtime/host/sysprint.c:162-188 | Whole records followed by more bytes read as those records and then the rest. |
| `Sysprint.Buffer.WriteRecord` | runtime/host/sysprint.c:138-144 | Header and payload are written at the head and nothing before it changes. |
| `Sysprint.Buffer.Emit` | runtime/host/sysprint.c:125-146 | A record is appended whole, byte for byte, when it fits and has a class; otherwise the buffer is unchanged and the drop counted. |
| `Sysprint.Drain` | runtime/host/sysprint.c:162-188 | Every record in the buffer is dispatched in order to the first matching sink of its class, and the buffer is empty afterwards. |
| `Sysprint.RouteDelivers` | runtime/host/sysprint.c:162-188 | Records with a sink all arrive, once, in order, unchanged. |
| `Sysprint.EmitAll` | runtime/host/sysprint.c:125-146 | Over any sequence of emits, accepted plus newly dropped is the number of emits, and the buffer holds exactly the accepted ones. |
| `Sysprint.RoundTrip` | runtime/host/sysprint.c:125-188 | Emit, then drain: exactly the accepted records arrive with the same bytes at the first matching sink. |

## Left out

- Soft float: the strict-IEEE build option that keeps subnormals, and the double-precision entry points.
- Live interval construction, the interval-level `coalesce`, loop extensions: intervals are inputs of linear scan.
- Spill code insertion and `fin_regs` in both allocators: long in-place plumbing around relay registers; the colouring results are about a round without spills.
- GraphColouring.Allocate: nodes are numbered by vreg, without the dense renumbering through `ra_vreg_to_node`; costs are inputs.
- Interference.RunRelated: instructions have at most one definition; multi-definition instructions are outside the simulation.
- Liveness.Solve: sets of vregs stand for the bit vectors.
- ScheduleDag.BuildDag: the latency of an instruction and its load and store flags are inputs; so are its kind and its accesses, for which ScheduleAccess says what build_dag records.
- ScheduleAccess.AccessesExact: opcodes are grouped by what they touch; that vector instructions read EXEC as their mask is left to MaskKept.
- Schedule.ScheduleBlock: blocks have a pseudo-operation prefix and a terminator suffix; a load does not write memory, so returning atomics are outside; the capacities of the queue and the output, which only a terminator placed twice in a block of full size could reach, are not modelled.
- ScheduleAccess.EmittedRevisits: instruction selection itself is not modelled; that it emits at most one result per instruction, never VCC or SCC, is read off its emit functions.
- WaitInsertion.InsertWaits: the output buffer is unbounded; the loads of each key are looked up in scheduled order.
- ScheduleWaits.ScheduleAndWait: the existing waits that the scheduler strips first are not part of the block; the caller's copy of a block left alone is not modelled.
- ExecLowering.LanesAsIfAlone: no returns inside arms (the guard-clause form of a divergent branch to a lone return), no loops with a test of several blocks, with further exits or with the test at the end, no uniform branches; regions no deeper than the stack of 64.
- ExecLowering.Selector.TakeAddress: stands for the global references; the pairs for pointer parameters and for the parameter snapshot (isel.c lines 688, 1974 and 1999), taken from the same counter with other tests of the limit, are not modelled.
- ExecLowering.Selector: the maximum depth recorded for the register budget is not modelled.
- BlockOrder.NestOrder: the bound on the stack counts the stale entries that earlier conditionals leave behind.
- Per-opcode instruction selection, divergence analysis and the switch lowering.
- DominatorTree.BuildPreds: one list per block stands for the flattened array and its cap of 255 predecessors.
- The later phases of `ra_ssa.c` (loop depth, liveness, spilling, assignment, parallel copies).
- PhiElim.Module.Eliminate: the capacities of the copy table and of the instruction array.
- Encoding.EncodeFunction: the bits of the formats of fixed length and the counters of `s_waitcnt` are not modelled; code offsets are unbounded; that short instructions have 32-bit immediates, and comparisons no result, is read off instruction selection.
- Encoding.PatchAll: the buffer goes at least one word past the code, so that the literal written past it has a place; references do not overlap.
- Opcode tables, ELF and msgpack writing, assembly printing.
- Rv64Code.LoadImmediate: above 0x7FFFF7FF the source overflows a signed addition.
- Rv64Code.Assembler.ResolveFixups: code is a list of words; the fixup table is unbounded.
- Rv64Bits.Popc32: the sequence is modelled as the effect of its instructions on registers, not as words.
- The other RV64 and x86 selection code.
- Sysprint.Buffer.Emit: null payloads and null buffers are not modelled; sizes that would wrap in 32 bits are excluded.
- `bc_sp_emitf` and the stock sinks: formatting and file output.
- Command line, loading, execution, the front end and the optimiser.
