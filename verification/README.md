# Verified model of the assembler, compiler and microarchitecture simulator

A Dafny model of the toolchain around a small 32-bit ISA, and proofs about it. Each imperative component is a class or a
loop with the original's state, proved against a specification function; the properties are lemmas about those functions.

- **Timing models.** `InstStream`, `Generator` and `FrontEnd` produce the decoded instruction stream and its branch penalties;
  `Pipeline`, `PipelineSim` and `PipeRun` are the cycle-by-cycle five-stage pipeline with caches, `Scoreboard` the in-order
  superscalar model, `OutOfOrder` the Tomasulo-style one, `IssueModels` both of these in place. `PipelineRefinement` proves the
  pipeline equal to the scoreboard at width 1, `CostedPipeline` and `CachedSchedule` extend that to the pipeline with caches,
  `Schedules` proves both issue models to be the one schedule in which everything happens as early as it may,
  `Footprint` that decoding records all an instruction depends on and nothing else, `TimingClaims` states the results for whole
  programs, `MemoryStalls` what the caches cost them, and `ColdCode` exactly when the loop's safety net cuts runs short,
  `CallProgram` the same for programs of the CPU, and `ColdProgram` a program of NOPs that is cut short.
- **Predictors and caches.** `BranchPredictor`, `BranchUnit` and `TournamentClaim`; `CacheModel`, `CacheUnit` and `MemoryHierarchy`.
  `PredictorHistory` says of every predictor what it answers after a branch history, without tables, `Redirects` which
  instructions are charged, `CacheLaws` what each replacement policy keeps.
- **Compiler.** `CAst`, `CSemantics` (a big-step evaluator bounded by fuel, which `Fuel` shows to be immaterial), `CodeGen` and the
  in-place `CodeGenerator`, and the target on assembly lines, `Machine`. `CodeRuns`, `FrameRuns`, `CallRuns` and `CompilerCorrect`
  simulate source by target; `CodeShape`, `Layout` and `Loader` give labels, frames and data, `Scopes` what every name means in
  code and evaluation, `Acceptance` which programs are accepted; `Rewriting` and `Peephole` the optimiser on lines,
  `TextPeephole` the optimiser as it works, on text, and `Balance` why the two agree; `ProgramCorrect` puts
  them together, and `Waiting` bounds the words a program keeps on the hardware stack.
- **CPU and toolchain.** `WordCpu` is the CPU on memory bytes with devices and a stack in memory, `Cpu` the same in place; `Flags`
  says what results and flags mean as numbers and bits, `Silence` what a silent run is. `Hardware` runs assembly lines on it,
  `Closure` finds a label for every reference, `Emission` prints the lines and reads the text back,
  `Naming` says which names survive that, `TextCompiler` what is in the output file, `Linker` what the assembler makes of it,
  and `Toolchain` joins compiler, printer, assembler and CPU. `Oracle` drives the timing models with this CPU.
- **Expression parser.** `CParser` and the in-place `ParserUnit`; `CGrammar` states the grammar of sections 6.5.1 to 6.5.16 of
  ISO/IEC 9899:2011 level by level and proves the parser right for it.
- **Assembler.** `Isa` (with `IsaBits`), `AsmLexer`, `AsmParser`, `AsmParserUnit`, `AsmEncoder`, `Assembler`; `AsmReading` and
  `AsmRoundTrip` for disassembly and back; `AsmNumerals`, `AsmForms`, `InstructionSet` and `AsmImage` say what numbers, spellings,
  instructions and whole sources mean.

`Arith`, `Words` and `Wrappers` hold arithmetic by repeated addition, 32-bit words, and optional results.

Where code and documentation differ the model follows the code. The README's "never worse than its worse component" of the tournament
predictor is a measurement; it holds exactly where the history distinguishes nothing, and so in no configuration of the simulator
(`NeverWorseIff`, `EveryTournamentCanLose`). The round-trip script's property needs a
non-empty image: an empty listing is refused by the assembler, because an empty statement list is a null pointer
(`RoundTrip`, `Reassembled`). The peephole's STORE pattern does not check the register it ends in (`OtherRegisterBreaks`); generated
code never depends on it. Its patterns for PUSH and POP also match label lines, which can spoil a valid program (`SpoiltIsRefused`,
`TextIsLines`). The pipeline's safety net can end a run early when the second-level cache is slow
(`SlowSecondLevelStopsEverything`, `NetCoversProgramsIff`). The generator records AND, MUL and others as producing the flags, though
carry and overflow pass through them (`FlagsDependOnSources`).

## Model

| member | source | states |
|---|---|---|
| Generator.StreamIsCpuRun | src/pipe_sim.c:139-171 | Instruction k of the generated stream is what the undisturbed CPU executes after k of its own steps; the stream ends exactly at the first halt or at the limit. |
| Generator.Gen.constructor | src/pipe_sim.c:133-137 | A new generator has produced nothing and stands at the program's start. |
| Generator.Gen.Push | src/pipe_sim.c:147-163 | Overwriting one slot of the 32-entry ring keeps every entry fewer than 32 instructions old. |
| Oracle.GenOne | src/pipe_sim.c:139-165 | In place on the byte CPU: decode, note the data address of the five kinds of memory instruction, step, and note where fetch goes; the result is Exec's. |
| Oracle.Exec | src/pipe_sim.c:139-165 | Whatever halts the CPU, be it HALT, an illegal opcode, a division by zero or the halt device, is no control instruction and does not redirect fetch. |
| Oracle.GeneratesTheRun | src/pipe_sim.c:139-171 | A program that halts within the limit is generated exactly to its halt, and leaves the CPU in the state cpu_run ends in. |
| Oracle.NoFinalPenalty | src/pipe_sim.c:203-229 | The last instruction of a program that halts is charged no fetch penalty, whatever the predictor. |
| Oracle.HaltingProgramCycles | src/pipe_sim.c:231-335 | Every program that halts, under any predictor and any caches the net covers: the pipeline exits with all its instructions retired and the CPU as a silent cpu_run leaves it, and cycles = instructions + 4 + data + control + memory stalls, with nothing subtracted. |
| WordCpu.DependsOnSources | src/pipe_sim.c:73-122 | The recorded sources suffice: CPU states that agree on them, and on everything but registers and flags, step to the same memory, stack, jump, input and output, the same written register and the same record. |
| WordCpu.WritesOnlyRecorded | src/pipe_sim.c:73-122 | Registers, flags, memory bytes and pc not recorded as written keep their values. |
| WordCpu.FlagsDependOnSources | src/pipe_sim.c:62-71 | Flags recorded as set are a function of the recorded sources exactly for ADD and SUB; the other instructions pass carry and overflow on, so the flags agree exactly if these two agreed before. |
| WordCpu.HaltFallsThrough | src/cpu.c:64-217 | A halting step leaves pc behind its instruction and is no jump, call or return. |
| Footprint.ReadsOnlyRecorded | src/pipe_sim.c:73-122 | States that differ in memory alone, and not in the four bytes at the recorded address, step alike. |
| Footprint.EverySourceMatters | src/pipe_sim.c:73-122 | No operand is recorded in vain: for each there are two states that differ in it alone and step apart. |
| Footprint.EveryResultShows | src/pipe_sim.c:73-122 | No result is: some state has its register, flags, access or pc really changed. |
| Footprint.EveryAccessShows | src/pipe_sim.c:139-165 | No memory access is: some state has the recorded bytes written, or steps differently when they differ. |
| Footprint.DeviceReads | src/device.c:9-16 | Loading from 0xE008 is IN, from any other device address loading 0. |
| Footprint.DeviceWrites | src/device.c:18-26 | Storing to 0xE000 is OUT and to 0xE00C is HALT, to 0xE004 prints the low byte as a character, to any other device address does nothing. |
| Silence.SilentRun | src/device.c:5-26 | A silent run of any length is the run without input, with input and output left as they were. |
| Generator.Gen.GenOne | src/pipe_sim.c:139-165 | One step of the given CPU extends the window by the next instruction of the program and raises done exactly at its end. |
| Generator.Gen.Ensure | src/pipe_sim.c:168-171 | Answers whether instruction k exists, and generates exactly up to k or to the end of the program. |
| Generator.Gen.At | src/pipe_sim.c:173-175 | Any index still inside the ring window reads the instruction of that index, never an overwritten one. |
| FrontEnd.StreamPenalties | src/pipe_sim.c:203-229 | The fetch penalties are a function of the program and the predictor alone: one per instruction, 0 or 2, and 0 for whatever neither is a control instruction nor redirects fetch. Which of the two: Redirects.PenaltyIff. |
| FrontEnd.Front.Charge | src/pipe_sim.c:295-297 | Charging control instructions one by one in program order yields exactly the penalty sequence of the stream. |
| FrontEnd.Front.Next | src/pipe_sim.c:468-470 | The issue loops see instruction i together with penalty i, and stop exactly at the end of the program. |
| FrontEnd.Front.Summary | src/pipe_sim.c:326-335 | Reported instruction count, branch statistics and final CPU state are those of the generated prefix run on its own. |
| BranchUnit.StatisticIsHistoryCount | src/pipe_sim.c:221-225 | The reported branch and misprediction counts equal those of the bare predictor on the stream's conditional-branch history. |
| BranchUnit.BranchUnit.constructor | src/bpred.c:13-46 | The arrays start as the initial counters, choosers and an empty target buffer. |
| BranchUnit.BranchUnit.SatUpdate | src/bpred.c:8-11 | Moves one counter one step, saturating at 0 and 3, and leaves every other entry alone. |
| BranchUnit.BranchUnit.Predict | src/bpred.c:81-105 | The in-place predictor answers what the value model predicts, for all seven kinds. |
| BranchUnit.BranchUnit.Update | src/bpred.c:107-145 | Training in place changes tables, choosers and history exactly as the value model does. |
| BranchUnit.BranchUnit.BtbLookup | src/bpred.c:147-154 | Hits exactly when the entry is valid and tagged with this pc, and returns its target. |
| BranchUnit.BranchUnit.BtbUpdate | src/bpred.c:156-161 | Installs pc and target in the pc's entry and nothing else. |
| BranchUnit.BranchUnit.CountAndUpdate | src/pipe_sim.c:221-225 | Conditional branches are counted, mispredicted directions counted once, and the predictor is trained on the actual outcome. |
| BranchUnit.BranchUnit.ControlPenalty | src/pipe_sim.c:203-229 | Charges the flush penalty exactly when the direction guess is wrong or a taken target was unknown, and trains predictor and target buffer; over a stream that is Redirects.PenaltyIff. |
| Redirects.PenaltyIff | src/pipe_sim.c:203-229 | For every stream: without a predictor an instruction is charged 2 exactly if it is taken; else nothing exactly if it does not redirect, or its direction is foreseen and, if taken, the last earlier taken instruction in its buffer entry was itself going to the same target; 2 otherwise. |
| Redirects.FirstTakenIsCharged | src/pipe_sim.c:213-219 | Whatever the predictor, an instruction with no earlier taken one at its pc is charged 2 when it is taken. |
| Redirects.KnownIff | src/bpred.c:147-161 | The buffer knows a target exactly if the last taken instruction that shares the entry has this pc and target. |
| BranchPredictor.CounterBound | src/bpred.c:8-11 | For every branch history, aliasing included, bimodal-2bit and gshare mispredict at most twice the not-taken outcomes, and at most twice the taken outcomes plus the table entries used. |
| PredictorHistory.PredictsFromHistory | src/bpred.c:13-145 | For all geometries and all branch histories each of the seven predictors answers a function of the outcomes alone: the last one at the address, walks between 0 and 3 over the outcomes sent to an address or to address xor history, and for the tournaments over who was right. |
| PredictorHistory.OneBitTable | src/bpred.c:112-114 | A one-bit entry is the last outcome of the branches that share it. |
| PredictorHistory.GshareTableIs | src/bpred.c:57-121 | A gshare counter is the walk over the outcomes of the branches that the history of their time sent there. |
| PredictorHistory.ChooserIs | src/bpred.c:122-133 | The chooser of the two-way tournament is the walk over the disagreements under its history: up where gshare was right. |
| PredictorHistory.ScoreIs | src/bpred.c:134-143 | The three scores of the three-way tournament are walks over the successes of its components. |
| BranchPredictor.CounterCharges | src/bpred.c:115-121 | The same bound with a potential over the used counters, kept after every branch. |
| BranchPredictor.CounterCore | src/bpred.c:8-11 | One trained counter: the outcome pays for a misprediction and for the change of both potentials. |
| BranchPredictor.ComponentsEvolveAlone | src/bpred.c:122-133 | Over every history the tournament's tables and history register are those of a stand-alone bimodal-2bit and gshare. |
| BranchPredictor.ComponentsMissAlone | src/bpred.c:122-124 | The tournament's components are right on a branch exactly when the stand-alone predictors are. |
| BranchPredictor.TournamentBound | src/bpred.c:77-94 | For every history the two-way tournament mispredicts at most twice as often as bimodal-2bit, and at most twice as often as gshare plus the chooser entries used. |
| BranchPredictor.ChooserCharges | src/bpred.c:122-133 | The invariant behind the tournament bound: chooser potentials pay for every loss against either component. |
| TournamentClaim.NeverWorseIff | README.md:190-191 | The measured claim "never worse than its worse component" holds over all branch histories exactly if the tables have no index bits or no history bits, for every geometry. |
| TournamentClaim.EveryTournamentCanLose | src/pipe_sim.c:240-245 | As zero bits select the defaults, every configuration of the simulator's tournament, the default 10 and 8 included, has a history on which it mispredicts more than both components. |
| TournamentClaim.ShortHistories | src/bpred.c:107-133 | Up to 30 shared bits: weaken word 0, fill the history with ones, teach the chooser gshare on word 0 and punish it on the word that aliases with it. |
| TournamentClaim.LongHistories | src/bpred.c:107-133 | The same effect where the history is longer than an instruction address. |
| TournamentClaim.OneBranch | src/bpred.c:69-133 | One branch changes tables, choosers, visible history and all three misprediction counts as the race between the three predictors says. |
| CacheModel.LruIsRecencyStack | src/cache.c:43-64 | After every address history an LRU access hits exactly when its tag is among the assoc most recently used distinct tags of its set. |
| CacheModel.LruInvariant | src/cache.c:51-62 | After every history each LRU set holds its most recently used tags, without duplicates, stamped in order of last use. |
| CacheModel.LruInclusion | src/cache.c:43-64 | With equal sets and block size, whatever hits in an LRU cache hits in one of higher associativity after the same history. |
| CacheModel.MoreWaysMissLess | src/cache.c:43-64 | Hence over every history the more associative LRU cache never misses more often. |
| CacheModel.WorkingSetFit | src/cache.c:43-64 | Under LRU, FIFO or arbitrary random victims misses are at least the distinct blocks touched, and exactly those when no set sees more tags than it has ways. |
| CacheModel.UsedBlocks | src/cache.c:46-49 | A set and a tag name one block: the tag has been used in the block's set exactly if the block has been touched. |
| CacheModel.MissOnlyIfNew | src/cache.c:51-58 | A first touch always misses; in a set that has seen no more tags than ways every later touch hits. |
| CacheModel.ResidentSize | src/cache.c:23-28 | The valid tags of a set are distinct, at most the ways, and as many as the ways exactly when no way is empty. |
| CacheModel.VictimIsLru | src/cache.c:31-40 | Under LRU the victim is an empty way, or all ways are full and none has an older stamp. |
| CacheLaws.FifoIsQueue | src/cache.c:43-64 | After every address history a FIFO set holds the assoc tags brought in last, and an access hits exactly when its tag was brought in and fewer than assoc others have been since. |
| CacheLaws.FifoInvariant | src/cache.c:51-62 | After every history the lines of a FIFO set are stamped in the order of the misses that brought them in. |
| CacheLaws.HitKeepsLines | src/cache.c:53 | A hit under FIFO or random replacement changes nothing but the access count. |
| CacheLaws.RoomFirst | src/cache.c:23-28 | While a way is empty a miss evicts nothing and draws no random number, under every policy. |
| CacheLaws.RandomEvicts | src/cache.c:29-30 | In a full set the random policy evicts the way the next random number names, and uses up one number. |
| CacheLaws.AddressFields | src/cache.c:46-49 | An address is block offset, set and tag from the bottom up, and no other split fits. |
| CacheLaws.HitsAgain | src/cache.c:43-64 | Whatever was accessed hits next, and so does the rest of its block. |
| CacheUnit.Cache.constructor | src/cache.c:6-15 | The allocated arrays describe the empty cache. |
| CacheUnit.Cache.PickVictim | src/cache.c:23-41 | The scan returns the first empty way, else the random draw, else the first way of least stamp, and draws only in the random case. |
| CacheUnit.Cache.FindWay | src/cache.c:51-56 | The scan finds the first valid way with the tag, or none. |
| CacheUnit.Cache.Stamp | src/cache.c:59-62 | Writing one line in place changes that line and the clock only. |
| CacheUnit.Cache.Access | src/cache.c:43-64 | An access in place hits exactly when the value model does and leaves its next state: the one that LruIsRecencyStack, FifoIsQueue and RandomEvicts describe. |
| MemoryHierarchy.Probe | src/pipe_sim.c:272-280 | Free exactly on a hit or with the cache disabled, and never dearer than the worst miss; misses are counted one by one, the second level is asked exactly on them, and what misses there too costs its miss penalty. |
| MemoryHierarchy.MemorySystem.FetchAccess | src/pipe_sim.c:301-305 | The fetch access probes I-cache then L2 in place, as the value model says, and returns its cost. |
| MemoryHierarchy.MemorySystem.LoadStoreAccess | src/pipe_sim.c:272-281 | Likewise for the data access of the instruction that enters MEM. |
| Pipeline.CycleKeepsOrder | src/pipe_sim.c:257-322 | In every reachable state the live latches and the pending fetch hold a contiguous, ordered run of instruction indices ending at the last one fetched. |
| Pipeline.RetiresInOrder | src/pipe_sim.c:270-320 | A cycle retires the next instruction in program order or none. |
| Pipeline.CycleKeepsAccount | src/pipe_sim.c:257-322 | Every cycle is accounted to an instruction, to filling, or to exactly one of the three stall counters, whatever the access costs. |
| Pipeline.FinalAccount | src/pipe_sim.c:326-329 | At the end cycles are instructions plus four plus the three stall counts, less the last instruction's own penalty. |
| Pipeline.CycleKeepsBounds | src/pipe_sim.c:257-322 | Stall counters stay within what the fetched instructions can cost. |
| Pipeline.CycleKeepsMeter | src/pipe_sim.c:257-322 | After every cycle the bubbles charged are the penalties of the instructions fetched, and what these leave of two cycles an instruction covers the data stalls. |
| Pipeline.MeterBounds | src/pipe_sim.c:257-322 | So data and control stalls together take at most two cycles an instruction. |
| Pipeline.NetIsSlack | src/pipe_sim.c:255-259 | No cycle count reached in an accounted state exceeds the safety net, if the worst accesses and three cycles fit what it allows an instruction. |
| PipelineSim.RunRetiresInOrder | src/pipe_sim.c:270-320 | On every cycle of every run, caches included, instructions retire one at a time and in order. |
| PipelineSim.CycleAccounting | src/pipe_sim.c:257-329 | On every program that drains, halting or cut off at the limit: cycles = instructions + 4 + data + control + memory stalls - last penalty. |
| PipelineSim.NetNeverFires | src/pipe_sim.c:255-321 | As long as the worst fetch and the worst data access together cost at most 17 cycles more than the two L1 penalties, the safety net never fires before the program has drained. |
| PipelineSim.ExitsWhenDone | src/pipe_sim.c:257-322 | So the loop ends only because everything generated has retired. |
| PipelineSim.EveryInstructionRetires | src/pipe_sim.c:257-322 | Every instruction of every program retires exactly once. |
| PipelineSim.CachesAreTimingFree | src/pipe_sim.c:272-305 | At every cycle the L1 caches are those of the addresses fetched and accessed so far in program order; timing never shows in them. |
| PipelineSim.AccessCounts | src/pipe_sim.c:337-353 | I-cache accesses are the instructions, D-cache accesses the memory instructions, L2 accesses the L1 misses. |
| PipelineSim.PlainRun | src/pipe_sim.c:257-322 | With the caches off every cycle is that of the bare five-latch pipeline. |
| PipelineSim.DoneWithScoreboard | src/pipe_sim.c:257-322 | The cache-free pipeline has drained after k cycles exactly if the width-1 scoreboard needs at most k. |
| PipelineSim.StructuralEqualsScoreboard | include/pipe_sim.h:43-46 | With the caches off the structural pipeline reports exactly the cycles of the issue model at width 1. |
| PipelineSim.ForwardingNeverSlower | src/pipe_sim.c:185-199 | Forwarding never makes the cache-free pipeline slower. |
| PipelineRefinement.ScoreboardComputesSchedule | src/pipe_sim.c:468-502 | The scoreboard's fetch cycles plus two are the earliest EX entry times the hazards allow. |
| PipelineRefinement.StallIsBlocked | src/pipe_sim.c:185-199 | The hazard unit stalls exactly when the schedule says an operand is not ready yet. |
| PipelineRefinement.CycleTracks | src/pipe_sim.c:257-322 | One cycle of the pipeline keeps every latch on the schedule's times. |
| PipelineRefinement.PipelineIsScoreboard | src/pipe_sim.c:257-322 | After k cache-free cycles the pipeline has drained exactly if the scoreboard's total is at most k. |
| CostedPipeline.CostRunIsScoreboard | src/pipe_sim.c:257-322 | For any costs of every fetch and every data access the pipeline has drained after k cycles exactly if the width-1 scoreboard, with fetch waits as bubbles, plus the first wait and all data waits need at most k. |
| CostedPipeline.CostRunMirrors | src/pipe_sim.c:257-322 | After k cycles the latches are those of the cache-free pipeline after the cycles that did not stand still. |
| CostedPipeline.SameDataStalls | src/pipe_sim.c:185-199 | So are the data stalls: waiting for memory neither adds nor hides one beyond what its bubbles do. |
| CachedSchedule.CachedPipelineIsScoreboard | src/pipe_sim.c:257-322 | With L1 caches of any kind the cycles are exactly those of the width-1 scoreboard, with the misses that program order alone determines as bubbles and waits. |
| CachedSchedule.ExitCycle | src/pipe_sim.c:257-322 | With an L2 as well, within the net the loop ends in exactly the cycle the costs charged during the run say. |
| CachedSchedule.DrainsInTotal | src/pipe_sim.c:257-322 | And no pipeline that drains does so in another cycle, net or not. |
| CachedSchedule.NotedCosts | src/pipe_sim.c:272-305 | Each of these costs is a hit exactly if program order says so, and otherwise one of the latencies that answer a miss. |
| CachedSchedule.SecondLevelOrder | src/pipe_sim.c:272-305 | After every cycle the L2 is that of the L1 misses in the order of the cycles, the data access ahead of the fetch. |
| PipeRun.Hazard | src/pipe_sim.c:185-199 | The loop over the operands in ID answers the specified stall condition. |
| PipeRun.FetchStage | src/pipe_sim.c:289-317 | The fetch branch chain updates latches, counters and I-cache as specified, in each of its five cases. |
| PipeRun.MoveOn | src/pipe_sim.c:283-318 | Bubble or advance, then fetch. |
| PipeRun.Tick | src/pipe_sim.c:258-321 | One turn of the loop body is one step of the simulator. |
| PipeRun.CycleLoop | src/pipe_sim.c:257-322 | The loop terminates and ends in a state reached by whole cycles, drained or at the net. |
| PipeRun.PipeRun | src/pipe_sim.c:231-356 | The whole function: its cycles, stalls, cache counts and, once everything has retired, its oracle state are those of the specification. |
| TimingClaims.ScalarPipelineIsWidthOne | include/pipe_sim.h:43-46 | For every program, limit, predictor and forwarding setting the loop exits after exactly the width-1 issue model's cycles, and after no other number. |
| TimingClaims.SlowSecondLevelStopsEverything | src/pipe_sim.c:255-321 | The safety net is not harmless for every configuration: if an L2 miss costs more than the net allows one instruction, every program stops after 17 times (20 plus the two L1 penalties) plus 65 cycles with nothing retired. |
| ColdCode.ColdCodeIsCutShort | src/pipe_sim.c:255-321 | A stream that touches no block twice, and whose instructions, fetch penalties and misses cost more than the net allows it, is cut short by the net. |
| ColdCode.NetCoversIff | src/pipe_sim.c:255-321 | The exact condition for streams: behind an L2 whose hits cost no more than its misses, and with blocks of which 32-bit addresses have enough, every stream retires in full under every predictor if and only if the worst fetch, the worst data access and three cycles fit in 20 plus the two L1 penalties. |
| CallProgram.NetCoversProgramsIff | src/pipe_sim.c:231-335 | The exact condition for programs of the CPU with its 64 KB: where a chain of calls fits the memory, data blocks being four bytes at most, every program retires in full under every limit and predictor if and only if the same sum fits. |
| CallProgram.CallsAfter | src/cpu.c:162-192 | The program that shows it: each call goes to the next one and pushes its return address below the last, leaving the code alone. |
| ColdProgram.NopsAreCutShort | src/pipe_sim.c:231-335 | Memory full of NOPs, in four-byte blocks behind an L2 miss penalty of 20 plus the two L1 penalties: a long enough run of the CPU never retires in full, under any predictor. |
| ColdCode.RetiresWithinNet | src/pipe_sim.c:255-321 | A run that retires everything has its instructions, its fetch penalties and the cost of all its misses within the net. |
| MemoryStalls.StallsAreMisses | src/pipe_sim.c:257-322 | Once a program has drained, the memory stall counter is exactly the cost of its misses, L2 hits and misses at their latencies, or without L2 the L1 misses at their penalties, and one cycle for every fetch miss that was answered in no time. |
| MemoryStalls.NoFreeFetches | src/pipe_sim.c:301-305 | There are no such fetch misses if every answer takes a cycle. |
| TimingClaims.OutOfOrderOnPrograms | src/pipe_sim.c:367-442 | For every program and predictor a wider, deeper or out-of-order machine never takes more cycles, nor fewer than any dependence chain costs. |
| Scoreboard.FetchNondecreasing | src/pipe_sim.c:472-489 | Fetch cycles never go back in program order. |
| Scoreboard.BundleWidth | src/pipe_sim.c:472-489 | No cycle holds more than width instructions. |
| Scoreboard.Throughput | src/pipe_sim.c:472-507 | Instructions are at most width times (cycles - 4). |
| Scoreboard.RawSeparation | src/pipe_sim.c:478-495 | A reader and the latest writer of what it reads never share a cycle, and the reader's EX waits for the result. |
| Scoreboard.YoungestProducer | src/pipe_sim.c:491-495 | A slot's ready cycle is always that of its youngest older producer. |
| Scoreboard.StepNoLater | src/pipe_sim.c:468-502 | One issue step keeps a wider or forwarding machine no later in cycle, lane count, results and branch block. |
| Scoreboard.WiderAndForwardingNeverSlower | src/pipe_sim.c:448-516 | For every stream a wider machine, or one with forwarding, fetches no instruction later and takes no more cycles. |
| Schedules.EarliestFetchIff | src/pipe_sim.c:468-507 | Fetch cycles are the issue model's if and only if every instruction is fetched in the least cycle that order, width, redirects and the results it reads allow; the cycles reported are the last fetch plus four. |
| IssueModels.LatestNeed | src/pipe_sim.c:478-482 | The loop over the operands computes the latest need. |
| IssueModels.IssueState.Issue | src/pipe_sim.c:468-502 | The loop body updates bundle, ready array and branch block as the specified step. |
| IssueModels.PipeRunSs | src/pipe_sim.c:448-516 | The whole function reports the specified cycles and the CPU state of the whole program. |
| OutOfOrder.StepOrder | src/pipe_sim.c:394-426 | Each instruction dispatches, executes, completes and commits in that order, and the branch block never moves backwards although it is overwritten. |
| OutOfOrder.InOrderEnds | src/pipe_sim.c:394-426 | Dispatch and commit times never decrease in program order. |
| OutOfOrder.DispatchWidth | src/pipe_sim.c:395-402 | At most width instructions dispatch in a cycle. |
| OutOfOrder.CommitWidth | src/pipe_sim.c:416-419 | At most width instructions commit in a cycle. |
| OutOfOrder.RobHoldsCommit | src/pipe_sim.c:397-420 | Ring slot i modulo the size holds the commit time of instruction i until it is needed again. |
| OutOfOrder.WindowRespected | src/pipe_sim.c:397-400 | At most rob_size instructions are between dispatch and commit. |
| OutOfOrder.ReadyIsYoungestProducer | src/pipe_sim.c:404-413 | A register's ready time is the completion of its youngest older producer, so name reuse never delays. |
| OutOfOrder.OccupyNoLater | src/pipe_sim.c:395-402 | Filling lanes keeps (cycle, count) in lexicographic order between a wider and a narrower machine. |
| OutOfOrder.StepOooNoLater | src/pipe_sim.c:390-427 | One scheduling step keeps the stronger machine no later in every component of its state. |
| OutOfOrder.OutOfOrderNeverSlower | src/pipe_sim.c:367-442 | For every stream, at least the width, at least the ROB and dropping in-order execution never cost a cycle, and no instruction commits later. |
| OutOfOrder.DataflowLimit | src/pipe_sim.c:404-421 | Cycles are at least one plus the latency of any chain of true dependences, at every width and ROB size. |
| OutOfOrder.DataflowLimitAttained | src/pipe_sim.c:404-421 | With width and ROB at least the instruction count, no penalties and out-of-order execution some chain attains that bound. |
| Schedules.EarliestIff | src/pipe_sim.c:384-427 | Dispatch, execution and commit times are the model's if and only if each instruction dispatches, executes and commits in the least cycle that widths, window, redirects, producers and, in order, the previous execution allow; the cycles reported are the last commit. |
| Schedules.ExecutesInOrder | src/pipe_sim.c:408-409 | With in-order execution no instruction executes before an older one. |
| Schedules.OneInstruction | src/pipe_sim.c:44-51 | A program of one instruction takes 1 cycle more than its latency: 20 for DIV, 3 for MUL, 2 for LOAD and POP, else 1. |
| Schedules.RepeatedCycles | README.md:144-147 | n equal instructions, each on the last one's result, take at least n times that latency and one cycle, on every machine. |
| IssueModels.OooState.DispatchOne | src/pipe_sim.c:394-402 | Dispatch in place: lane and time as specified. |
| IssueModels.OooState.ExecuteOne | src/pipe_sim.c:404-413 | Execution in place: start, completion and ready times as specified; the start is the earliest that operands and order allow (Schedules.EarliestIff). |
| IssueModels.OooState.CommitOne | src/pipe_sim.c:415-421 | Commit in place: lane, ring slot and last commit as specified. |
| IssueModels.OooState.Issue | src/pipe_sim.c:390-427 | The whole loop body is one specified step. |
| IssueModels.PipeRunOoo | src/pipe_sim.c:367-442 | The whole function reports the specified cycles, those of the earliest schedule (Schedules.EarliestIff), and the CPU state of the whole program. |
| Toolchain.ToolchainIsCorrect | src/cgen.c:367-434 | Compile, print, optimise the text, assemble, run: whenever a source program's evaluation ends with no more return addresses and operands waiting than the hardware stack holds, its output file assembles and the CPU halts on the assembled bytes with the source's output, the same input left, its result in R0 and its cells in data memory. |
| Toolchain.LightProgramsRun | src/cgen.c:367-434 | The same under a condition known before the run: words waiting in one activation at most, times the activations the R7 stack has room for, within the hardware stack. |
| Toolchain.RunsUnlessFull | src/cgen.c:367-434 | The same for an evaluation with any number of words waiting, unless the hardware stack of the run grows down into the data. |
| Toolchain.StackStaysHigh | src/cpu.c:162-165 | If the evaluation keeps no more waiting than the hardware stack holds, the stack pointer of the assembled program never comes down into the data. |
| Waiting.WordsSuffice | src/cgen.c:106-222 | A program whose activations keep few operands waiting evaluates in that many words times its activations just as with more. |
| Toolchain.CompiledAssembles | src/encoder.c:76-119 | The assembler accepts the output file of every program whose globals are safe, whose names are identifiers apart from registers and generated labels, and whose numbers fit their fields, and the image has its size. |
| Acceptance.AcceptedIff | src/cgen.c:390-434 | The code generator accepts a program if and only if it has a main, every name is a parameter, local or global, calls name functions with as many arguments, what is assigned or has its address taken is an lvalue and no whole array is assigned, literals fit 20 bits, and global initialisers are literals. |
| Acceptance.ExprAccepted | src/cgen.c:106-279 | The same for expressions. |
| Toolchain.FileIsLines | src/cgen.c:367-434 | Under these conditions the output file is the generated lines, optimised as lines and printed. |
| TextCompiler.TextIsLines | src/cgen.c:361-388 | The exact condition: on the text of a generated program with readable names and numbers the optimiser's patterns do what its rewrites do on lines if and only if no empty array whose name begins with PUSH stands directly in front of a global whose name begins with POP. |
| TextCompiler.UnsafeDiffers | src/cgen.c:367-388 | With such a pair the text loses the array's label, which the lines keep. |
| TextCompiler.SpoiltIsRefused | src/cgen.c:367-388 | The patterns take labels for instructions: `int PUSHa[0]; int POPb; int main() { POPb = 7; return POPb; }` has good names and numbers, compiles, and its output file is refused by the assembler. |
| TextPeephole.OptimizeMatches | src/cgen.c:361-388 | On lines whose pushes and pops nest between named labels, and where some line that no rewrite removes stands between a label spelt like a push and one spelt like a pop, the loop of scanf patterns over the text yields the printed result of the loop over lines. |
| TextPeephole.EmitMatches | src/cgen.c:372-386 | One turn of the sweep: each pattern matches the printed line exactly if the rewrite applies to the line, unless both are spelt like a push and a pop and one of them is a label. |
| Balance.GeneratedIsQuiet | src/cgen.c:390-428 | Generated programs with safe globals are of this kind: every construct leaves as many pushes open as it found, and no named label stands between a push and its pop. |
| Balance.EmitQuiet | src/cgen.c:372-386 | One turn of the sweep keeps lines of this kind so. |
| Closure.GeneratedIsClosed | src/cgen.c:390-428 | Every jump, call and data reference in a generated program names a label the program defines. |
| Closure.OptimizeKept | src/cgen.c:367-388 | On lines the peephole pass drops no label and invents no reference. |
| Hardware.RunSim | src/cpu.c:64-237 | A run on assembly lines is a run of the CPU on memory that holds code, data and hardware stack together, label lines taking no step, as long as the hardware stack stays above the data. |
| Hardware.RunHigh | src/cpu.c:64-237 | If lines halt without ever holding more words than fit above the data, the CPU's stack pointer stays there at every step. |
| Hardware.ExecSim | src/cpu.c:75-216 | One instruction does on the memory words what it does on the line machine. |
| Hardware.StoreData | src/memory.c:37-43 | A data store leaves code, other data and the hardware stack as they are. |
| Hardware.PushSlot | src/cpu.c:162-165 | A push lands just below the stack and leaves all data as it is. |
| Hardware.FullStack | src/cpu.c:162-165 | One push too many shows in the stack pointer. |
| Linker.FilledWords | src/encoder.c:76-117 | The image of printed lines has at every line's address the word of that line, labels resolved to their lines' addresses. |
| Linker.LookupFinds | src/encoder.c:21-26 | The symbol table gives a label the address of its line. |
| Linker.BootData | src/encoder.c:76-119 | The image at address 0 gives every aligned data address its initial word, zero where the program declares none. |
| Linker.AddressesPrefix | src/encoder.c:55-74 | The loader's data addresses are the assembler's. |
| Emission.ReadFile | src/cgen.c:28-64 | The printed file, header comment included, lexes and parses to exactly the statements of its lines. |
| Emission.LexLine | src/cgen.c:46-64 | Labels, data words and instructions, with label operands or numbers, lex to their own tokens. |
| Toolchain.OptimizeKeepsLabels | src/cgen.c:367-388 | On lines the peephole pass keeps labels unique. |
| ProgramCorrect.CompilerIsCorrect | src/cgen.c:390-434 | Whenever the evaluation of a source program ends, its compiled and optimised lines halt, in one way only: same output, same input left, R0 the result of main, and the same value in every global; and the hardware stack never holds more words than waited in the evaluation. Names mean what Scopes says. |
| ProgramCorrect.GeneratedProgramRuns | src/cgen.c:411-428 | The same before the peephole pass, for data at any addresses below the stack. |
| ProgramCorrect.GeneratedIsLinked | src/cgen.c:345-353 | In generated code every function's code stands at its label and no label occurs twice. |
| ProgramCorrect.DataInImage | src/cgen.c:418-428 | After loading, every global's initial words are in memory at its label, aligned, behind the code. |
| ProgramCorrect.OtherRegisterBreaks | src/cgen.c:364-383 | The pass does not check the register a STORE takes: a concrete program that stores R1 halts with R0 = 1 before the pass and R0 = 0 after it. |
| Fuel.RunIsOne | src/cgen.c:224-335 | A source program has at most one result, however much fuel it is given. |
| Fuel.MoreExecStmt | src/cgen.c:288-335 | A statement's outcome is unchanged by more fuel. |
| Fuel.MoreEval | src/cgen.c:224-279 | An expression's value and effects are unchanged by more fuel. |
| CompilerCorrect.SimExpr | src/cgen.c:224-279 | For every expression whose evaluation ends, its code runs from first line to last with the value in R0, memory, input and output as evaluated, and frame, R7 and hardware stack restored; what a name evaluates to is fixed by Scopes. |
| CompilerCorrect.SimAddr | src/cgen.c:106-129 | Address code leaves the lvalue's address in R0, a name's being that of Scopes; subscripts scale by four, pointer addition does not. |
| Scopes.ParameterCode | src/cgen.c:79-84 | Parameter i is loaded from R6 + 4 + 4i and stored there, whatever globals and declarations are called. |
| Scopes.LocalCode | src/cgen.c:86-101 | A declared scalar is loaded and stored at its slot, the bytes declared so far below R6; an array stands for its address and cannot be assigned. |
| Scopes.GlobalCode | src/cgen.c:79-84 | Only a name that no parameter and no declaration has reaches the global. |
| Scopes.UndefinedCode | src/cgen.c:106-109 | A name that is none of these is an error. |
| Scopes.DeclarationCode | src/cgen.c:290-293 | An initialiser is stored in the slot of its own name. |
| Scopes.ParameterMeans | src/cgen.c:79-84 | In the evaluation too a parameter's name means its cell. |
| Scopes.LocalMeans | src/cgen.c:86-101 | A local's name means the cell of its slot, or the address of the array. |
| Scopes.GlobalMeans | src/cgen.c:79-84 | A free name means the global. |
| Scopes.ReturnsArgument | src/cgen.c:337-359 | A function that returns its i-th parameter yields the i-th argument, whatever the globals are called. |
| Scopes.EveryNameIsOne | src/cgen.c:66-101 | Every name is a parameter, a local or free. |
| CompilerCorrect.SimBinary | src/cgen.c:176-203 | Binary operators, left operand first. |
| CompilerCorrect.SimShortCircuit | src/cgen.c:153-174 | The right operand of && and || is evaluated exactly when the source says, and the result is 0 or 1. |
| CompilerCorrect.SimAssign | src/cgen.c:242-262 | Assignment: a plain variable after the right side, any other target located before it. |
| CompilerCorrect.SimArgs | src/cgen.c:215-218 | Arguments are evaluated last to first and end up in order on the R7 stack. |
| CompilerCorrect.SimCall | src/cgen.c:205-222 | A call, built-in or user function, at any recursion depth, does what the source says. |
| CompilerCorrect.SimActivate | src/cgen.c:337-359 | From CALL to return: result in R0, R6, R7 and hardware stack restored, every caller cell as the source leaves it, everything above untouched. |
| CompilerCorrect.SimStmt | src/cgen.c:288-335 | Every statement's code ends at its last line, or at the function's epilogue after a return, in the state the source reaches. |
| CompilerCorrect.SimLoop | src/cgen.c:315-332 | while and for, with or without condition and step. |
| CompilerCorrect.SimIfElse | src/cgen.c:299-307 | Both branches of a conditional. |
| CompilerCorrect.SimReturn | src/cgen.c:295-298 | A return leaves its value in R0 at the epilogue. |
| CallRuns.RunPrologue | src/cgen.c:345-348 | The prologue saves the caller's frame pointer and reserves exactly the collected bytes. |
| CallRuns.RunEpilogue | src/cgen.c:353-357 | The epilogue restores R6 and R7 and returns to the caller. |
| CallRuns.CalleeIsGood | src/cgen.c:337-348 | A callee's cells lie between the stack limit and the caller's top of stack, apart from the saved frame pointer and from every caller cell. |
| CallRuns.RunPushArg | src/cgen.c:217 | An argument is stored just below every cell in use. |
| CodeRuns.RunCompare | src/cgen.c:131-152 | Comparison code leaves 1 or 0 in R0 by the signed comparison. |
| CodeRuns.RunRemainder | src/cgen.c:191-194 | Division, multiplication and subtraction leave the unsigned remainder. |
| CodeRuns.RunBang | src/cgen.c:269-272 | Logical not. |
| CodeRuns.RunIndexed | src/cgen.c:123-124 | Base plus four times the index. |
| Words.RemainderByParts | src/cgen.c:191-194 | In 32-bit arithmetic a - (a / b) * b is a mod b. |
| CodeShape.GeneratedLabelsUnique | src/cgen.c:390-428 | Generated code defines no label twice, and stores another register than R0 only in front of the prologue's MOV. |
| CodeShape.ExprFresh | src/cgen.c:62-64 | An expression's labels are new, distinct and within the numbers it draws. |
| CodeShape.StmtFresh | src/cgen.c:288-335 | Likewise for statements. |
| Layout.LocalsInFrame | src/cgen.c:86-101 | Every local lies inside the bytes reserved below the frame pointer. |
| Layout.LocalsDisjoint | src/cgen.c:90-95 | Different local names never share a byte. |
| Layout.ParameterSlot | src/cgen.c:339-341 | Parameter i is at R6 + 4 + 4i whatever the body declares. |
| Layout.DeclaredHasSlot | src/cgen.c:90-95 | Every declared name has a slot, so the unchecked lookup of a declaration always succeeds. |
| Loader.LoadedGlobals | src/cgen.c:418-428 | The data lines load exactly the initial globals, one behind the other. |
| Peephole.PassShrinks | src/cgen.c:372-386 | A pass never lengthens the buffer. |
| Peephole.UnchangedIsSettled | src/cgen.c:368-386 | A pass that does not shorten the buffer leaves it as it is and no rule applies anywhere. |
| Peephole.OptimizeIsNormal | src/cgen.c:367-388 | The result has no self-move, no adjacent push and pop, and no load of what the line before stored. |
| Peephole.NoPatternLeft | src/cgen.c:372-386 | Spelled out instruction by instruction: no MOV of a register to itself, no POP right behind a PUSH, no LOAD into R0 right behind a STORE to the same address. |
| Peephole.OptimizeAgain | src/cgen.c:367-388 | Optimising twice is optimising once. |
| Peephole.PassKeepsRuns | src/cgen.c:372-386 | One pass keeps every halting run of guarded code, in both directions, and keeps it guarded. |
| Peephole.OptimizeKeepsRuns | src/cgen.c:367-388 | Guarded code and its optimised form halt with the same registers, flags, memory, input, output and stack values: each does exactly if the other does, the optimised form in no more words of hardware stack. |
| Peephole.OptimizeOverData | src/cgen.c:367-388 | On lines, labels and data behind the code are untouched. |
| Rewriting.RewriteKeepsRuns | src/cgen.c:376-383 | Replacing one rewritable pair keeps every halting run both ways, with jump targets and return addresses moved, and takes no more words of hardware stack. |
| Rewriting.FindMoved | src/cgen.c:363-383 | A rewrite moves every label's position consistently and creates or loses none. |
| CodeGenerator.Generator.GenExpr | src/cgen.c:224-279 | The recursive emitter appends exactly the specified code and draws the specified labels, or reports the specified error; for names these are the code and the errors of Scopes, and errors come exactly where Acceptance says. |
| CodeGenerator.Generator.GenAddr | src/cgen.c:106-129 | Likewise for addresses. |
| CodeGenerator.Generator.GenShortCircuit | src/cgen.c:153-174 | Likewise for && and ||. |
| CodeGenerator.Generator.GenOperator | src/cgen.c:131-152 | Likewise for comparisons and arithmetic. |
| CodeGenerator.Generator.GenCall | src/cgen.c:205-222 | Likewise for calls, arguments last to first, with the argument-count and name errors. |
| CodeGenerator.Generator.GenAssign | src/cgen.c:242-262 | Likewise for assignments, with the array and target errors. |
| CodeGenerator.Generator.GenStmt | src/cgen.c:288-335 | Likewise for statements. |
| CodeGenerator.Generator.CollectLocals | src/cgen.c:86-101 | The tree walk appends to the symbol table exactly the specified slots. |
| CodeGenerator.Generator.GenFunction | src/cgen.c:337-359 | Likewise for a function, with its table reset. |
| CodeGenerator.Generator.GenGlobals | src/cgen.c:418-428 | Likewise for the data behind the code. |
| CodeGenerator.Generator.Print | src/cgen.c:28-64 | The comment line and every generated line, as text. |
| CodeGenerator.Generator.OnePass | src/cgen.c:372-386 | One sweep over the text buffer with its scanf patterns; changed exactly when it got shorter. |
| CodeGenerator.Generator.Peephole | src/cgen.c:367-388 | The loop over sweeps terminates with the specified optimised text. |
| CodeGenerator.Generator.Generate | src/cgen.c:390-428 | Entry stub, functions in order and data leave the specified lines, or the specified error. |
| CodeGenerator.Generator.Codegen | src/cgen.c:390-434 | The whole generator leaves the text of the output file's lines in the buffer, or the specified error. |
| Machine.HaltsOnce | src/cpu.c:232-237 | The machine is deterministic: two halted states reached from one start are equal. |
| Cpu.CPU.constructor | src/cpu.c:26-36 | Reset on a memory image: registers, flags and pc zero, the stack pointer at the end of memory. |
| Cpu.CPU.ReadWord | src/memory.c:29-35 | Four bytes, least significant first. |
| Cpu.CPU.WriteWord | src/memory.c:37-43 | Four bytes, least significant first, and nothing else. |
| Cpu.CPU.Load | src/device.c:9-16 | Device addresses read the input or 0 and never the memory; others read the memory or end the process. |
| Cpu.CPU.Store | src/device.c:18-26 | Device addresses print, halt or do nothing and never reach the memory. |
| Cpu.CPU.ExecAdd | src/cpu.c:43-52 | ADD in place: wrapped sum, carry, signed overflow, zero and sign, with the meaning of Flags.AddSays. |
| Cpu.CPU.ExecSub | src/cpu.c:54-62 | SUB in place: wrapped difference, borrow, signed overflow, zero and sign. |
| Flags.AddSays | src/cpu.c:43-52 | After ADD carry is set exactly if the unsigned sum does not fit and overflow exactly if the signed one does not. |
| Flags.SubSays | src/cpu.c:54-62 | After SUB carry is set exactly if the unsigned difference does not fit and overflow exactly if the signed one does not. |
| Flags.JumpsCompare | src/cpu.c:171-187 | Behind SUB the four conditional jumps compare the two operands as signed numbers, overflow included. |
| Flags.OthersSay | src/cpu.c:88-142 | The other results set zero and sign and pass carry and overflow on. |
| Flags.MulSays | src/cpu.c:88-93 | MUL keeps the low half of the product, signed and unsigned alike. |
| Flags.DivSays | src/cpu.c:94-105 | DIV is the unsigned quotient, and halts on a zero divisor. |
| Flags.LogicSays | src/cpu.c:106-129 | Each bit of AND, OR, XOR and NOT comes from the operands' bits at its place. |
| Flags.ShiftSays | src/cpu.c:130-142 | Shifts move the bits and fill with zeros. |
| Cpu.CPU.Execute | src/cpu.c:75-216 | Every instruction in place has exactly the specified effect on registers, flags, memory bytes, stack pointer, input and output. |
| Cpu.CPU.Step | src/cpu.c:64-217 | Fetch the word at pc from memory, decode, advance and execute. |
| Cpu.CPU.Run | src/cpu.c:232-237 | The loop stops in the first halted state the step function reaches. |
| CParser.ParseBinIff | src/cparser.c:112-123 | parse_bin(minprec) returns a tree exactly if the tokens consumed spell it with its parentheses, left children bind at least as tightly and right ones strictly tighter, the root at least minprec, and the next token binds looser. The levels are ISO C's: CGrammar.LevelsAgree. |
| CParser.ParseExprIff | src/cparser.c:125-133 | parse_expr returns a tree exactly if it is well formed, spells the consumed tokens, and no operator follows. |
| CGrammar.ParsesGrammar | src/cparser.c:59-133 | parse_expr returns a tree exactly if it is an expression of the ISO C grammar that spells the tokens consumed and could not go on. |
| CGrammar.LevelsAgree | src/cparser.c:59-70 | Each binding strength is one level of the grammar: the well-formed trees that bind at least so tightly are its trees. |
| CParser.Unambiguous | src/cparser.c:59-133 | No two well-formed trees spell the same tokens. |
| CParser.PostfixSound | src/cparser.c:81-100 | Calls and subscripts attach to the left and to names only where the grammar says; what follows is neither. |
| ParserUnit.NameStrips | src/cparser.c:84-86 | Parentheses leave no trace: a callee is a name exactly if it is one once they are dropped. |
| ParserUnit.Parser.ParseBin | src/cparser.c:112-123 | The climbing loop over the cursor returns the specified tree without parentheses, for an expression that of ISO C (CGrammar.ParsesGrammar), and stops at the specified token. |
| ParserUnit.Parser.ParsePostfix | src/cparser.c:81-100 | Likewise the postfix loop, with its error on calling what is not a name. |
| ParserUnit.Parser.ParseArgs | src/cparser.c:88-90 | Likewise the argument loop. |
| ParserUnit.Parser.ParseUnary | src/cparser.c:102-110 | Likewise prefix operators. |
| ParserUnit.Parser.ParsePrimary | src/cparser.c:72-79 | Likewise literals, names and parentheses. |
| ParserUnit.Parser.ParseExpr | src/cparser.c:125-133 | Likewise assignment, to the right. |
| AsmRoundTrip.RoundTrip | src/isa.c:62-83 | Disassembling any image and assembling the text gives back its bytes exactly if it is non-empty, whole words, and every word has a known opcode and zero in the fields its format leaves out. |
| AsmRoundTrip.Reassembled | src/encoder.c:41-136 | For every image: reassembly fails on an unknown opcode and on an empty listing, and otherwise gives the words with unused fields cleared. |
| AsmRoundTrip.CodeIsCanonical | src/encoder.c:55-119 | Every source text without data words and with aligned origins assembles to whole canonical words, padding included. |
| AsmRoundTrip.CodeSurvivesRoundTrip | tests/roundtrip.sh:2-21 | Assembly, disassembly, assembly gives the same image for every such source whose image is not empty. |
| AsmRoundTrip.ReadListing | src/lexer.c:30-99 | A listing lexes exactly if all opcodes are known, and then parses to one instruction a word. |
| AsmRoundTrip.ListingFill | src/encoder.c:77-119 | After k statements the first k words are in the buffer and the rest is zero. |
| AsmRoundTrip.DisassemblyDistinguishes | src/isa.c:62-83 | Different canonical words have different disassemblies. |
| AsmReading.LexInstruction | src/lexer.c:30-99 | A line of disassembly lexes as its mnemonic and operands, minus signs as separate tokens. |
| AsmReading.LexNumber | src/lexer.c:58-64 | Printed decimals are read back as their value; zero is the only one with a leading zero, read as octal. |
| AsmNumerals.HexadecimalRead | src/lexer.c:58-64 | 0x or 0X and hexadecimal digits in either case read as their value to base 16, cut off at the range of a long. |
| AsmNumerals.OctalRead | src/lexer.c:58-64 | A leading zero makes the digits octal. |
| AsmNumerals.DecimalRead | src/lexer.c:58-64 | Digits without one are decimal. |
| AsmForms.BlankIgnored | src/lexer.c:45 | Blanks between tokens do not count. |
| AsmForms.CommentIgnored | src/lexer.c:41-44 | A comment up to the end of the line does not count. |
| AsmForms.NameLength | src/lexer.c:75-88 | A name is one token up to 63 characters; the characters beyond them are read as a token of their own. |
| AsmForms.RegisterNames | src/lexer.c:22-28 | R0 to R7 in either case are registers, other names of two characters are names. |
| AsmForms.CaseIgnored | src/parser.c:28-33 | Mnemonics and directives are read in any case. |
| AsmForms.NoOffset | src/parser.c:90-110 | A missing offset is zero. |
| AsmForms.SignedNumbers | src/parser.c:69-80 | Numbers are read modulo 2^32 as signed, a minus sign negates. |
| AsmReading.MnemonicFound | src/parser.c:13-33 | Every opcode's printed name is found in the mnemonic table, case aside, as that opcode and no other. |
| InstructionSet.LineAssembles | include/isa.h:14-21 | For each of the 27 instructions: a line of its mnemonic and operands, destination first, becomes a word with its number in the top six bits, which decodes to that instruction with the operands written. |
| AsmReading.ParseOperandsBack | src/parser.c:69-156 | Operands of every format parse back to the fields they show, offsets down to -2^19 included. |
| AsmReading.ParseInstructionBack | src/parser.c:190-208 | So does the whole instruction. |
| AsmParser.StmtsProper | src/parser.c:158-218 | In every parsed program each instruction has a known opcode and zero in the fields its format leaves out, and a label stands only where the format has an immediate. |
| AsmParserUnit.Parser.ParseInstr | src/parser.c:121-156 | With its sticky error flag the operand parser appends exactly the specified statement, or raises the flag. |
| AsmParserUnit.Parser.ParseMem | src/parser.c:90-110 | Bracketed operands, with the sign taken apart. |
| AsmParserUnit.Parser.ParseDirective | src/parser.c:167-188 | Origins and data words, in any case; anything else is an error. |
| AsmParserUnit.Parser.FindMnemonic | src/parser.c:13-33 | The table scan finds the first entry that matches but for case. |
| AsmParserUnit.Parser.Parse | src/parser.c:158-218 | The statement loop returns the specified list; an empty program, being a null pointer, counts as an error. |
| AsmLexer.Scanned | src/lexer.c:35-94 | One turn of the loop finds the specified token and where the next one begins. |
| AsmLexer.ReadWord | src/lexer.c:77-81 | Names stop after 63 characters, the rest becoming the next token. |
| AsmLexer.SkipComment | src/lexer.c:41-44 | Comments run up to the newline. |
| AsmLexer.LexText | src/lexer.c:30-99 | The loop over the text returns the specified tokens or the lexical error. |
| AsmEncoder.WordInside | src/encoder.c:55-74 | Every word lies inside the allocated image. |
| AsmEncoder.SymLookup | src/encoder.c:21-26 | The scan returns the first symbol of the name. |
| AsmEncoder.AssignAddresses | src/encoder.c:55-74 | Pass 1 computes every statement's address, the image size and the symbol table. |
| AsmEncoder.WordFor | src/encoder.c:83-110 | Label resolution, the 20-bit range check and encoding, with their errors. |
| AsmEncoder.Write | src/encoder.c:115-118 | Four bytes, least significant first, nothing else. |
| AsmEncoder.Encoded | src/encoder.c:76-117 | Pass 2 leaves the specified image or stops at the first error. |
| AsmImage.ImageIs | src/encoder.c:55-119 | For every source below the end of the address space each byte of the image is that of the last word put over it, or 0, every word is inside, and assembly fails exactly if some word cannot be encoded. |
| AsmImage.AddressCounts | src/encoder.c:55-74 | A statement's address is the last origin plus four times the words since. |
| AsmImage.LabelIsAddress | src/encoder.c:21-26 | A label is the address of its first definition, and undefined without one. |
| AsmImage.InstructionWord | src/encoder.c:83-110 | An instruction is encoded exactly if its number or label fits 20 bits, and decodes to its fields and that number. |
| AsmImage.TopIsReached | src/encoder.c:55-74 | The image ends with its highest word. |
| Assembler.AssembleText | src/encoder.c:41-136 | Lexer, parser and both passes in sequence compute the specified image. |
| Isa.DecodeOfEncode | include/isa.h:38-53 | Decoding returns the encoded fields for every signed 20-bit immediate. |
| Isa.EncodeOfDecode | include/isa.h:38-53 | Encoding the decoded fields of a word with a known opcode returns the word, and the immediate is in signed 20-bit range. |
| IsaBits.DecodeIsBitwise | include/isa.h:30-49 | The masks and shifts of the decoding macros, bit by bit, are the field arithmetic of the model. |
| IsaBits.EncodeIsBitwise | include/isa.h:51-53 | So are the shifts and joins of the encoding macro, negative immediates included. |
| IsaBits.SignExtendBitwise | include/isa.h:41-47 | Setting the upper bits and reading the word as signed is subtracting 2^20. |

## Left out

- NetNeverFires: the converse is proved for streams by NetCoversIff and for programs of the CPU by NetCoversProgramsIff; it is not claimed with L2 off, for an L2 whose hits cost more than its misses, for blocks so large that few of them fit, or for programs in front of D-cache blocks above four bytes, where calls in a row share blocks.
- CompiledAssembles: safe globals are enough, not always needed; where what follows PUSH and POP in the two names agrees in its first 15 characters, both labels vanish from the file, and it still assembles if nothing refers to them.
- CompilerIsCorrect: speaks of evaluations that end; programs that do not end, divide by zero, shift by 32 or more, read unwritten cells or exhaust a stack have no source meaning here; that the machine then goes on for ever, or what it has written by then, is not stated.
- ToolchainIsCorrect: asks for names that are identifiers, not registers and not labels the generator numbers, for immediates of 20 bits, and for globals that the optimiser's patterns do not take for a push and a pop; it counts the words waiting before the optimiser removes some.
- Cpu.CPU.Run: the loop is proved for programs that halt; a loop that never ends has no final state to speak of.
- Encoded: does not model sources in which a word reaches the end of the 32-bit address space, where the original writes outside its buffer.
- AssembleText: likewise.
- Exec: an access outside the memory, which ends the process, and a shift by 32 or more, which C leaves undefined, end the generated stream; nothing is claimed of such programs.
- Timing with a unified L2: no monotonicity claim, since L1-I and L1-D misses then interleave by timing; the exact cycles are ExitCycle's.
- CachedPipelineIsScoreboard: speaks of configurations without L2, where program order determines every cost; with one, ExitCycle takes the costs from the run.
- The three-way tournament: what it answers is PredictsFromHistory; no bound on its mispredictions is claimed.
- C statements and declarations in the parser, and the C lexer: the expression grammar is where precedence is decided.
- Line numbers and wording of error messages, AMAT and other floating-point reports, the debugger, `disasm`'s annotated format, plotting and test scripts.
- Allocation failure, fixed table capacities, name buffers of the compiler, 64-bit counter overflow.
- `scanf` and `printf` become input and output sequences; `rand()` becomes an arbitrary sequence per cache; silent runs read zero.
