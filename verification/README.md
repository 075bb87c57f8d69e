# Verified model of the Lynx recompiler and its runtime

The repository recompiles Atari Lynx games ahead of time: it discovers the functions of a 65SC02
code image, translates each to C, and runs the result on a runtime with emulated peripherals. This
Dafny project models its core and proves, for all inputs, runs and states:

* **The recompiler as a compiler.** `Decode`/`Opcodes` are the opcode table, `Interp`/`Icpu` the
  interpreter (source semantics), `Target` the fragment of C that is emitted, `Runtime` the helpers
  it calls, `Sweep`/`Sorting`/`Analyze` function discovery, `Emit`/`Translate` the emitter. `Exec`
  runs emitted statements in place. `StackFrame` and `Simulation` relate one step of emitted code,
  calls and returns included, to one of the interpreter, `Runs` whole runs, and `Lockstep` runs both
  in place. `LabelTable` is a family of functions that overflow the label table, `Exits` says which
  transfers leave for code that was not recompiled, `Pace` how long a program runs without a tick.
* **Interrupts and time.** `Interrupts` shows that an interrupt is invisible to the code it
  interrupts; `Timers`/`TimerUnit` are the timer cascade, `Audio`/`AudioUnit` the audio channels,
  `Tick` the loop back-edge that drives them. Stepping does not depend on the step size.
  `TickedRuns` is the simulation with ticks and interrupts by any handlers, `Handlers` the one where
  the handlers are recompiled code too.
* **The boot-block decryptor.** `Bignum` is the big-endian arithmetic in place on byte arrays,
  `Lynxdec` cubing modulo the public modulus and the byte stream.
* **Sprites and the screen.** `Screen` is the frame buffer as a pixel grid, `Suzy`/`SuzyUnit` the
  blitter, `SpriteLaws` what a blit does, `Packets` the line formats, `Scenes` whole chains of
  stored sprites, `Video` the reader.
* **The serial link.** `Serial` is the UART with its ring buffer, `Link` two units and the bridge.
* **Arithmetic.** `Arithmetic` is multi-byte ADC and SBC, binary and decimal. `Bytes`, `Cpu` and
  `Division` hold shared machine integers, the machine state and facts about division.

Code that works in place is a class or a method over arrays, proved against functions on values;
the laws are lemmas about those functions. Machine integers are ranges of `int`, and wrap-around is
written out. `dafny verify dfyconfig.toml` checks everything.

## Reading notes

* A code image is a listing of the decoder's answer at each address (`Sweep.Load`). A 16-bit word
  of the image that would reach past its last byte reads as 0 (`ImgRd16`); the source guards its two
  address tests but not the second byte, which matters only for a word at $FFFF.
* A call in tail position (`lynx_func_f(); return;`) replaces the caller's frame.
* `Simulation` and `Runs` take flat RAM on both sides, code bytes that stay intact, and
  interpreter runs in which pulls and returns find what was pushed for them and no data access
  touches page 1. `lynx_tick` does nothing there; `TickedRuns` lets it step the timers and deliver
  interrupts, and interrupts the interpreter by the same handlers at the same instructions. What a
  handler does, and the timers it leaves, are given with the run. In `Handlers` a handler is the
  function at the vector, and only the timers that each tick finds are given.
* A sweep that reaches $FFFF goes on at 0, but the emitter stops at the recorded extent
  (`Sweep.Emitted`); the theorems are about the emitted part.
* A function that runs off its end returns to its caller (`Simulation.CStep`).
* `Runs.Closed` is the condition under which every goto has its label (`Translate.AllLabelled`).
* The interrupt latch is a byte in the source; a timer of the model carries its bit.
* A timer bank lists the timers in chain order, timer 6 last.
* A handler is given as the list of accesses it makes and interrupts it takes, so it may be any
  code. An interrupt in it carries the return address the interpreter pushes; recompiled code
  pushes 0.
* The transport between two units is a reliable stream that hands over any prefix of what is
  pending; connection loss is not modelled.
* `Suzy.Blit` reads and paints the same RAM, as the blitter does. Its frozen variant decodes from the
  RAM at the start and serves only to say what "the decoded pixels" are.

Where code and comments disagree, the model follows the code:

* `bn_reduce` is described as reducing an arbitrary 52-byte number; it never looks at the top byte.
  It is right exactly when that byte is 0 (`Bignum.ReduceIsModExactly`), which its caller ensures.
* The end of an emitted function is commented as a safety net. It is reached when discovery stops
  a sweep short of a terminator. The C function returns there while the interpreter executes the
  next instruction, so the two go on alike exactly when that is a return (`Runs.EndReturns`,
  `Runs.FollowsExactly`); a lone NOP is an input where they part (`Runs.NopRunsOff`).
* Discovery takes a jump to address 0 for "no target", so that its goto can lack its label
  (`Translate.JumpToZeroIsOpen`); so can targets beyond the first 256 of a function
  (`Translate.GotosClosedExactly`, `LabelTable.RowIsClosedExactly`).
* A tick is planted at backward gotos to let time advance in loops. A loop of tail
  calls from function to function has no goto and never ticks (`Pace.CycleNeverTicks`).
* The mix in `lynx_audio_sample` is annotated -512..511; it can be 512, because a channel can be at
  128 (`Audio.LoudestOutput`).

## Model

| member | source | states |
|---|---|---|
| `Decode.OptabFits` | tools/m65c02recomp/decode.c:17-51 | every one of the 256 table entries pairs a mnemonic with an addressing mode and a control-flow class that fit it; the unused encodings are NOPs with a fitting length |
| `Decode.DecodedIsWellFormed` | tools/m65c02recomp/decode.c:53-118 | whatever three bytes are decoded, length, operand range and resolved target agree with mode and flow class |
| `Decode.DecodeReadsOnlyItsLength` | tools/m65c02recomp/decode.c:68-118 | the decoder's answer depends on the opcode and on the operand bytes within the instruction's own length only |
| `Opcodes.OptabIsScheme` | tools/m65c02recomp/decode.c:17-51 | all 256 entries against the instruction set written by its encoding scheme, column by column: mnemonic, mode, flow class and length |
| `Opcodes.DecodedFields` | tools/m65c02recomp/decode.c:68-92 | mnemonic, mode, length and operand from the bytes: zero-extended, little-endian, or 0 |
| `Opcodes.DecodedTargets` | tools/m65c02recomp/decode.c:93-117 | the target is the signed distance in the second byte from the next instruction, for branches on a bit in the third; the operand of direct jumps and calls; 0 otherwise |
| `Icpu.InterpCpu.InterpStep` | tools/m65c02recomp/interp.c:96-179 | one interpreter step, run on the CPU object and RAM in place, leaves the configuration that the source semantics assigns to it |
| `Icpu.InterpCpu.InterpIrq` | tools/m65c02recomp/interp.c:83-88 | hardware interrupt entry in place: return address and status with B clear pushed, IRQs masked, binary mode, PC from $FFFE |
| `Icpu.InterpCpu.EaOf` | tools/m65c02recomp/interp.c:58-71 | effective addresses, with zero-page and 16-bit wrap |
| `Icpu.InterpCpu.Perform` | tools/m65c02recomp/interp.c:111-176 | for every mnemonic, the dispatch in place leaves the state and next program counter of the source semantics |
| `Runtime.LynxCpu.LynxAdc` | include/lynxrecomp/recomp_rt.h:105-124 | binary and decimal addition in place on A and the flags |
| `Runtime.LynxCpu.LynxSbc` | include/lynxrecomp/recomp_rt.h:125-144 | binary and decimal subtraction in place on A and the flags |
| `Runtime.LynxCpu.LynxPush` | include/lynxrecomp/recomp_rt.h:185 | push with S wrapping inside page 1 |
| `Runtime.LynxCpu.LynxPull` | include/lynxrecomp/recomp_rt.h:186 | pull with S wrapping inside page 1 |
| `Runtime.LynxCpu.LynxPPack` | src/cpu.c:8-17 | the status byte is N V 1 B D I Z C, from the six flags |
| `Runtime.LynxCpu.LynxPUnpack` | src/cpu.c:19-26 | all six flags from a status byte |
| `Runtime.LynxCpu.ZpPtrOf` | include/lynxrecomp/recomp_rt.h:27-29 | zero-page pointers read their high byte with zero-page wrap |
| `Emit.AddrExprIsEa` | tools/m65c02recomp/emit.c:78-91 | the emitted address expression evaluates to the interpreter's effective address in every memory mode |
| `Emit.RdExprIsRdVal` | tools/m65c02recomp/emit.c:93-97 | the emitted value expression evaluates to the interpreter's operand value |
| `Emit.ValueHelperAgrees` | include/lynxrecomp/recomp_rt.h:84-154 | each one-byte runtime helper does what the interpreter does for its mnemonic, decimal mode included |
| `Emit.StackAgrees` | include/lynxrecomp/recomp_rt.h:185-194 | each push and pull helper does what the interpreter does |
| `Emit.StateAgrees` | tools/m65c02recomp/emit.c:129-243 | for every instruction other than call, return and halt, the emitted statement leaves exactly the registers, flags and memory that interpreting the instruction leaves |
| `Emit.ReturnFromIrqAgrees` | tools/m65c02recomp/emit.c:251 | the statement of RTI leaves the interpreter's registers, flags, stack pointer and memory, and leaves the handler |
| `Emit.EndsExactly` | tools/m65c02recomp/emit.c:250-253 | which instructions end the C function, and how: RTI through lynx_rti, BRK through the unimplemented hook, RTS, WAI and STP at once, and no others |
| `Emit.TicksExactly` | tools/m65c02recomp/emit.c:73-75 | a goto ticks exactly when it does not go forward |
| `Emit.ControlAgrees` | tools/m65c02recomp/emit.c:209-248 | control continues at the interpreter's program counter: at a label, the next statement, the called function, or the address handed to a hook |
| `Sweep.SweepShape` | tools/m65c02recomp/analyze.c:79-154 | every visit of a sweep is the image's instruction at the address after the previous one |
| `Sweep.BodyIsConsecutive` | tools/m65c02recomp/analyze.c:79-157 | what is emitted of a swept body is consecutive instructions from the start to the recorded extent, also when the sweep goes on past $FFFF |
| `Sweep.WhySweepEnds` | tools/m65c02recomp/analyze.c:79-154 | a sweep ends at a terminator, or where it may not decode: at the 0x1000-byte limit, the end of the image or a truncated instruction |
| `Sweep.SweepEndsExactly` | tools/m65c02recomp/analyze.c:99-149 | the extent, both ways: a sweep that could go on ends at a terminator with no visited branch or backward jump target at or beyond the end, and it passes a terminator only for such a pending target |
| `Sweep.WordOfImage` | tools/m65c02recomp/analyze.c:44-48 | a word of the image is its two bytes, low byte first, and 0 where they are not both there |
| `Sweep.PcsIncrease` | tools/m65c02recomp/analyze.c:91-153 | later instructions of a body lie at higher addresses |
| `Analyze.Discovery.PushFunc` | tools/m65c02recomp/analyze.c:50-55 | a push on the worklist arrays and the seen bitmap, refused when out of the image, seen, or full |
| `Analyze.Discovery.RecordExt` | tools/m65c02recomp/analyze.c:57-60 | external targets are recorded once while there is room |
| `Analyze.ExtExactly` | tools/m65c02recomp/analyze.c:57-60 | with room left, the external targets recorded are exactly those of the visited calls and direct jumps out of the image |
| `Analyze.Discovery.Discover` | tools/m65c02recomp/analyze.c:69-158 | sweeping one function in place pushes its edges in order and appends its record: extent, labels, reaches-return flag |
| `Analyze.PushKeeps` | tools/m65c02recomp/analyze.c:50-55 | a push keeps the discovery invariant, and with fewer than MAX_FUNCS functions seen no in-image push is refused |
| `Analyze.RefusedMeansFull` | tools/m65c02recomp/analyze.c:52 | a push is refused for capacity only when at least MAX_FUNCS functions were found |
| `Analyze.DiscoverOneKeeps` | tools/m65c02recomp/analyze.c:69-158 | sweeping one function keeps the invariant and forgets nothing that was seen |
| `Analyze.DoneIsLeast` | tools/m65c02recomp/analyze.c:160-184 | an empty worklist with room left holds exactly the least closed set of starts |
| `Analyze.Drain` | tools/m65c02recomp/analyze.c:170-171 | the worklist loop terminates and keeps the invariant |
| `Analyze.AnalyzeDiscover` | tools/m65c02recomp/analyze.c:160-184 | discovery terminates with distinct starts and sorted labels; there is a least set with the in-image seeds closed under call, forward-jump and pointer-table edges, the starts are always in it, and below MAX_FUNCS they are all of it; the table is below MAX_FUNCS exactly when that set is |
| `Analyze.LeastExists` | tools/m65c02recomp/analyze.c:160-171 | the intersection of the closed sets is closed, so the least set exists for every image, also when the table is full |
| `Analyze.LeastIsUnique` | tools/m65c02recomp/analyze.c:160-171 | the least set does not depend on the order or repetition of the seeds |
| `Sorting.InsertFacts` | tools/m65c02recomp/analyze.c:176-181 | one insertion keeps the order and adds exactly the new label |
| `Sorting.SortFacts` | tools/m65c02recomp/analyze.c:173-182 | the label sort yields an ordered permutation: no label is lost, added or duplicated |
| `Sorting.SortLabels` | tools/m65c02recomp/analyze.c:176-181 | the in-place insertion sort sorts its prefix and leaves the rest |
| `Translate.LabelsAreFirst` | tools/m65c02recomp/analyze.c:62-65 | the label table holds the first MAX_LABELS distinct branch and jump targets of the sweep, in order of appearance, and no others |
| `Translate.TargetsExactly` | tools/m65c02recomp/analyze.c:100-108 | an address is a target exactly when some visited branch, or jump to a nonzero address, in the image goes there |
| `Translate.MarkBoundaries` | tools/m65c02recomp/emit.c:327-335 | the pre-pass marks exactly the instruction boundaries that discovery visited |
| `Translate.EmitFunction` | tools/m65c02recomp/emit.c:337-360 | the body loop emits exactly one line for each instruction discovery visited, in order |
| `Translate.FuncTableFind` | tools/m65c02recomp/analyze.c:186-190 | the lookup finds the first record with the start address, and fails exactly when there is none |
| `Translate.GotosClosedExactly` | tools/m65c02recomp/emit.c:53-67 | every emitted goto names a label emitted exactly once, if and only if every target inside the body is among the first MAX_LABELS targets of its sweep |
| `Translate.OnlyZeroIsLost` | tools/m65c02recomp/analyze.c:107-108 | with at most MAX_LABELS targets, a goto lacks its label exactly when the function starts at 0, jumps to 0 and never branches to 0 |
| `Translate.JumpToZeroIsOpen` | tools/m65c02recomp/analyze.c:107-108 | that happens: the function JMP $0000 at address 0 is emitted with a goto and no label |
| `LabelTable.RowIsClosedExactly` | tools/m65c02recomp/analyze.c:62-65 | the full table loses labels: a row of n branches, each to the next instruction, and a return, at any address, has all its labels exactly up to n = 256 |
| `Translate.NonzeroStartIsClosed` | tools/m65c02recomp/analyze.c:107-108 | a function with a nonzero start and at most MAX_LABELS targets has all its labels |
| `Translate.QuietMovesForward` | tools/m65c02recomp/emit.c:73-75 | inside a body, control that passes without a tick, back from a call included, moves to a later line |
| `Translate.LongRunsTick` | tools/m65c02recomp/emit.c:73-75 | any path inside one body, past the calls in it, that visits more statements than the body has executes a tick |
| `Pace.StepPasses` | tools/m65c02recomp/emit.c:209-248 | the paths that this is about are those of the program: steps inside a body, and calls that come back |
| `Pace.TicksOrClimbs` | tools/m65c02recomp/emit.c:73-75 | over whole runs, through calls, returns, tail calls and computed jumps, and for any ranking of the functions: within a computed number of statements the program ticks, stops, or enters a function of no lower rank |
| `Pace.TicksInTime` | tools/m65c02recomp/emit.c:73-75 | a program whose functions only enter functions of lower rank ticks or stops within that number of statements, from any point |
| `Pace.RoomAtStart` | tools/m65c02recomp/analyze.c:79 | from the start of a function that number is at most 4097 * w(r) for rank r, where w(0) = 1 and w(r) = 1 + 4097 * w(r - 1) |
| `Pace.PingsAreFound` | tools/m65c02recomp/analyze.c:106-119 | two functions a byte apart that jump to each other are both discovered, as separate functions |
| `Pace.CycleNeverTicks` | tools/m65c02recomp/emit.c:237-243 | the ranking is needed: the emitted program of those two runs for ever, from any state, and never ticks |
| `Exits.BootCallsExactly` | tools/m65c02recomp/emit.c:245-249 | with room left in the table, a subroutine call is emitted as a hook exactly when its target is outside the image, and as a call of a recompiled function exactly when it is inside |
| `Exits.ExtJumpsExactly` | tools/m65c02recomp/emit.c:222-244 | with room left in the table, a branch or direct jump is emitted as a hook exactly when its target is out of the image, or is neither a boundary of the body nor in the least set of starts and is one discovery does not follow: of a branch, of a jump back, or 0 |
| `Exits.JumpBelowLeaves` | tools/m65c02recomp/emit.c:237-243 | an input where that happens inside the image: a function that jumps back below its start leaves for a hook |
| `StackFrame.PlainEffect` | tools/m65c02recomp/interp.c:96-179 | an instruction that does not touch the stack does the same on machines that differ only in S and page 1 |
| `StackFrame.PlainNextPc` | tools/m65c02recomp/interp.c:96-179 | its next program counter does not depend on S and page 1 either |
| `Simulation.FetchIsListed` | tools/m65c02recomp/emit.c:337-348 | while the code bytes are intact, the interpreter fetches the very instruction a statement was emitted from |
| `Simulation.LocalC` | tools/m65c02recomp/emit.c:129-243 | a local statement leaves the interpreter's state and lands at its program counter, in the emitted program |
| `Simulation.CallStates` | tools/m65c02recomp/interp.c:169 | a call keeps the relation between the two stacks: the interpreter has two more bytes |
| `Simulation.ReturnStates` | tools/m65c02recomp/interp.c:170 | a return finds the address its own call pushed |
| `Simulation.RtiStates` | tools/m65c02recomp/interp.c:171 | RTI restores the same flags on both machines from what the interrupt pushed, and the interpreter its program counter |
| `Simulation.StepSimulates` | tools/m65c02recomp/emit.c:129-251 | one emitted statement, short of the end of the body, simulates one interpreted instruction: calls, returns, returns from interrupt, pushes, pulls and tail jumps included |
| `Runs.Progress` | tools/m65c02recomp/emit.c:129-251 | short of the end of a body, while the interpreter's step is clean, the emitted program does not stop: it takes a step or hands an address to a hook |
| `Runs.RunSimulates` | tools/m65c02recomp/emit.c:237-251 | call-level simulation from a clean interpreter run alone: the emitted program is where the interpreter is at every step, with the same A, X, Y, flags and memory outside page 1 and the return addresses erased from the stack, until it leaves by a hook that gets the interpreter's state, or runs off the end of a body where the next instruction is no return |
| `Runs.FollowsExactly` | tools/m65c02recomp/emit.c:361 | the emitted program follows a clean run, or leaves by a hook, exactly when every end of a body it comes to on the way has a return behind it |
| `Runs.MayRunOffExactly` | tools/m65c02recomp/emit.c:350-361 | the last statement of a body lets control past it, in some machine state, exactly when its instruction is no terminator; an empty body is past its end at once |
| `Runs.CompleteRunSimulates` | tools/m65c02recomp/emit.c:337-361 | if every body ends in a terminator or is followed in memory by the byte of a return, the emitted program follows the whole run or leaves by a hook |
| `Runs.EndReturns` | tools/m65c02recomp/emit.c:361 | at the end of a body the C function returns to its caller, with the interpreter at the address after the last instruction, and the two go on alike exactly when the instruction there is a return |
| `Runs.NopRunsOff` | tools/m65c02recomp/emit.c:337-361 | an input where the two part: the function of a lone NOP returns after it, and the interpreter goes on behind it |
| `Runs.Recompile` | tools/m65c02recomp/emit.c:318-363 | discovery and then the emission of every record found yields, body for body, the program these runs are about |
| `Simulation.EntryIsRelated` | tools/m65c02recomp/emit.c:323 | a function entered with nothing of its caller on the stack starts in the relation |
| `Simulation.EscapeAgrees` | tools/m65c02recomp/emit.c:218-247 | leaving for code that was not recompiled, the hook gets the interpreter's program counter, registers, flags and memory outside page 1 |
| `Runs.LocalRunAgrees` | tools/m65c02recomp/emit.c:129-243 | from equal states, any run of local instructions leaves equal registers and all of memory equal at the interpreter's program counter, and a hook gets exactly the interpreter's state, unless the body ends first |
| `Lockstep.InterpRun` | tools/m65c02recomp/lynxexec.c:105-111 | the interpreter's loop in place, while nothing stops it, is as many steps of the source semantics |
| `Lockstep.RunBoth` | tools/m65c02recomp/emit.c:337-361 | a function run in place on both machines from equal states ends with equal registers, flags and memory outside page 1, after all steps of a clean run or where it leaves with the interpreter's program counter |
| `Exec.RunInsn` | tools/m65c02recomp/emit.c:129-248 | the emitted statement run in place on the CPU object and RAM leaves the interpreter's registers, flags and memory, and control at its program counter |
| `Exec.RunAlu` | include/lynxrecomp/recomp_rt.h:164-174 | each value transformer in place leaves the flags of its operation and returns its result |
| `Interrupts.LynxIrqEnter` | src/recomp_exec.c:17-25 | interrupt delivery in place, up to the call of the handler |
| `Runtime.LynxCpu.LynxRti` | src/recomp_exec.c:30-34 | return from interrupt in place: three pulls, the first into the flags |
| `Interrupts.UnpackRestores` | src/cpu.c:8-26 | unpacking the pushed status, B cleared, restores all six flags |
| `Interrupts.BalancedRun` | src/recomp_exec.c:17-34 | a stack-balanced run returns S and touches only the stack bytes it pushes to and what it writes |
| `Interrupts.Transparent` | src/recomp_exec.c:17-34 | delivery, a balanced handler up to 255 pushes deep and RTI restore S and all six flags and change only dead stack bytes and the handler's own writes, S wrapping included |
| `Interrupts.DeeperLosesFlags` | src/recomp_exec.c:22 | the depth bound is exact: a balanced handler 256 pushes deep overwrites the saved status and can leave any flags |
| `Interrupts.LiveBytesAreSafe` | src/recomp_exec.c:17-34 | bytes the interrupted code has on the stack are not among the dead ones while everything fits in page 1 |
| `Interrupts.NestedDelivery` | src/recomp_exec.c:17-34 | one delivery with its handler and return is a balanced run of accesses, three bytes deeper than the handler |
| `Interrupts.FlattenRuns` | src/recomp_exec.c:17-42 | a run in which handlers are interrupted, each delivery in the state reached, is a run of single accesses |
| `Interrupts.FlattenBalanced` | src/recomp_exec.c:17-42 | those accesses are balanced and stay within the depth computed level by level |
| `Interrupts.NestedTransparent` | src/recomp_exec.c:17-42 | transparency of an interrupt whose handler is itself interrupted, at any point and to any level, while all levels together fit in 255 bytes |
| `Interrupts.ShallowIsNested` | src/recomp_exec.c:17-42 | handlers d bytes deep nested n levels down need d + n * (d + 3) bytes at most |
| `Interrupts.DeliveryIsOps` | src/recomp_exec.c:17-25 | a delivery is the sequence of accesses that the nesting argument uses |
| `Interrupts.ReturnIsOps` | src/recomp_exec.c:30-34 | a return from interrupt is a sequence of accesses as well |
| `Interrupts.EntryAgrees` | tools/m65c02recomp/interp.c:83-88 | the interpreter enters a handler as recompiled code does, but pushes its program counter where that pushes 0 |
| `Interrupts.DeeperLosesPc` | tools/m65c02recomp/interp.c:83-88 | the bound of 253 pushes on coming back is exact: a balanced handler 254 deep overwrites the high byte of the return address |
| `Interrupts.InterpreterComesBack` | tools/m65c02recomp/interp.c:83-88 | interrupted by a handler that fits, the interpreter returns to the very program counter, in the state that transparency describes |
| `TickedRuns.ActsAlike` | src/recomp_exec.c:17-34 | a handler, interrupts in it included, leaves interpreter and recompiled code alike outside the stack page, whatever return addresses each pushes |
| `TickedRuns.InterruptRelated` | src/recomp_exec.c:17-34 | an interrupt between two steps keeps the simulation relation: stacks, callers, code and positions |
| `TickedRuns.ServedByIrq` | tools/m65c02recomp/interp.c:83-88 | on the interpreter the interrupt of these runs is its request, the handler and RTI |
| `TickedRuns.TickedRunSimulates` | src/recomp_exec.c:37-42 | simulation with time: the program that ticks at its back-edges, advances the timers and takes interrupts follows the interpreter interrupted by the same handlers at the same instructions |
| `TickedRuns.TickAndServe` | src/recomp_exec.c:37-42 | a tick with its handler in place: timers stepped by four microseconds, and the handler run exactly when some timer is pending and IRQs are not masked |
| `TickedRuns.TimedInPlace` | src/recomp_exec.c:37-42 | a step of these runs in place, the handler included |
| `Handlers.EntryRelated` | src/recomp_exec.c:17-25 | delivery to a recompiled handler keeps the simulation relation: the interpreter at its vector, the C program in the function there, one more frame on each stack |
| `Handlers.ServedInPlace` | src/recomp_exec.c:37-42 | a step of these runs in place: statement, tick, timers, audio and delivery on the runtime's own objects |
| `Handlers.HandlersSimulate` | src/recomp_exec.c:17-42 | simulation with recompiled handlers: for any timers the ticks find, the program follows the interpreter, interrupted at the same instructions, through handlers, interrupts of handlers and their RTI |
| `Tick.LynxTick` | src/recomp_exec.c:37-42 | a back-edge steps timers and audio by four microseconds on the shared registers and enters the handler exactly when the latch is nonzero and IRQs are not masked |
| `Tick.PendingIsSomeTimer` | src/timer.c:19 | the latch is nonzero exactly when some timer's bit is set |
| `Tick.TickIsFourSteps` | include/lynxrecomp/recomp_rt.h:75 | a tick is four steps of one microsecond |
| `Arithmetic.AddByte` | include/lynxrecomp/recomp_rt.h:105-124 | one ADC is digit addition with carry, in binary and on decimal digits, and keeps decimal digits valid |
| `Arithmetic.SubByte` | include/lynxrecomp/recomp_rt.h:125-144 | one SBC is digit subtraction with borrow, in both modes |
| `Arithmetic.AdcIsAddition` | include/lynxrecomp/recomp_rt.h:105-124 | n ADCs with the carry threaded give the sum modulo 256^n, or 100^n with valid digits, and the final carry is the true carry |
| `Arithmetic.SbcIsSubtraction` | include/lynxrecomp/recomp_rt.h:125-144 | n SBCs give the difference modulo 256^n or 100^n, and the final carry is no-borrow |
| `Arithmetic.AdcOverflows` | include/lynxrecomp/recomp_rt.h:109 | in binary mode V after n ADCs is signed overflow of the n-byte number |
| `Arithmetic.SbcOverflows` | include/lynxrecomp/recomp_rt.h:129 | in binary mode V after n SBCs is signed overflow of the n-byte number |
| `Bignum.BnAdd` | tools/m65c02recomp/lynxdec.c:62-69 | in-place addition modulo 256^n, also of a number to itself |
| `Bignum.BnSub` | tools/m65c02recomp/lynxdec.c:53-60 | in-place subtraction is exact when nothing is borrowed |
| `Bignum.BnCmp` | tools/m65c02recomp/lynxdec.c:49-51 | byte-lexicographic order is numeric order |
| `Bignum.BnAddmod` | tools/m65c02recomp/lynxdec.c:71-74 | modular addition of residues, doubling in place included; the guard byte never overflows |
| `Bignum.BnBit` | tools/m65c02recomp/lynxdec.c:76-79 | the tested bit is the bit of the number |
| `Bignum.BnMulmod` | tools/m65c02recomp/lynxdec.c:82-91 | shift-and-add leaves the product modulo N: the accumulator is a*(b >> bit) mod N throughout |
| `Bignum.BnReduce` | tools/m65c02recomp/lynxdec.c:93-101 | bitwise reduction leaves the number without its top byte modulo N |
| `Bignum.ReduceIsModExactly` | tools/m65c02recomp/lynxdec.c:92-101 | that is the residue of the whole number exactly when the top byte is 0, for any odd modulus above 255 |
| `Lynxdec.CubeMod` | tools/m65c02recomp/lynxdec.c:112-114 | reducing, squaring and multiplying is cubing modulo N (RSAEP with e = 3, section 5.1.1 of RFC 8017) |
| `Lynxdec.LoadReverse` | tools/m65c02recomp/lynxdec.c:107-110 | the block is loaded as its little-endian value |
| `Lynxdec.CubeBlock` | tools/m65c02recomp/lynxdec.c:112-114 | the result array holds x^3 mod N for the block's value x |
| `Lynxdec.LeftAlign` | tools/m65c02recomp/lynxdec.c:117-123 | the significant bytes are left-aligned in the 51-byte buffer, and they always fit |
| `Lynxdec.BufferValue` | tools/m65c02recomp/lynxdec.c:117-123 | the buffer's value is the result times 256^(51 - significant bytes) |
| `Lynxdec.Accumulate` | tools/m65c02recomp/lynxdec.c:126-130 | exactly 50 bytes are written: running sums of buffer bytes 50 down to 1 |
| `Lynxdec.DecryptBlock` | tools/m65c02recomp/lynxdec.c:105-131 | one block's stream, continuing from the accumulator |
| `Lynxdec.DecryptFrame` | tools/m65c02recomp/lynxdec.c:147-151 | after all blocks the output is the running sums of all buffer bytes consumed, the accumulator carried across blocks |
| `Lynxdec.DecryptLoader` | tools/m65c02recomp/lynxdec.c:135-153 | for one to five blocks k, counted by the first byte as 256 - k, with 51 bytes each and room for 50: exactly 50 * k bytes are written, nothing else; for anything else -1 and no change |
| `Lynxdec.SumsConcat` | tools/m65c02recomp/lynxdec.c:126-130 | streams of consecutive blocks are one stream |
| `Lynxdec.DifferencesRecover` | tools/m65c02recomp/lynxdec.c:126-130 | first differences recover the buffer bytes: the stream loses nothing |
| `Timers.SuccOfPlace` | src/timer.c:28 | the link table is the chain 0, 2, 4, 1, 3, 5, 7, with 6 alone |
| `Timers.TickReaches` | src/timer.c:32-48 | a tick changes exactly the timers its cascade reaches, each by one tick of its own |
| `Timers.TickAdvances` | src/timer.c:32-48 | one more cascading tick of a free timer is one more in its own count, with every linked timer at the underflows of its predecessor |
| `Timers.AdvanceSum` | src/timer.c:63-77 | batches of ticks add up, timer by timer, however they are split |
| `Timers.BatchesCommute` | src/timer.c:63-77 | batches of ticks for different timers, in one chain or in several, can be taken in either order |
| `Timers.StepSplits` | src/timer.c:63-77 | step-size independence: two steps leave the same registers, phases and latch as one of the same length, for any register contents, barring 32-bit phase overflow |
| `Timers.StepsAsOne` | src/timer.c:63-77 | k equal steps are one long step: 1-microsecond and 4-microsecond stepping agree |
| `Timers.SplitsExactly` | src/timer.c:70 | for two steps that do not overflow, the single step makes the same number of ticks exactly when its phase does not overflow |
| `Timers.OverflowDiffers` | src/timer.c:70 | a concrete bank that one overflowing step leaves in a different state |
| `Timers.CyclicTicks` | src/timer.c:36-46 | a reloading timer counts down modulo backup + 1 and underflows once a round, in closed form |
| `Timers.ChainCounts` | src/timer.c:32-48 | a reloading chain is a mixed-radix down-counter with an exact carry-out count |
| `Timers.ChainCountsDown` | src/timer.c:63-77 | in a whole step a linked, reloading chain's combined value goes down by the head's ticks modulo the product of (backup + 1) |
| `Timers.ChainUnderflows` | src/timer.c:35-44 | exact underflow count of every timer of the chain |
| `Timers.ChainLatches` | src/timer.c:39 | a latch bit of the chain is set exactly when it was, or INT is armed and the chain up to that timer went round |
| `Timers.LatchExactly` | src/timer.c:39 | for any timer: the bit is set exactly when it was, or INT is armed and it underflowed |
| `TimerUnit.MikeyTimers.Tick` | src/timer.c:32-48 | the recursive tick on the registers and the latch is the cascade, and writes count and control B registers only |
| `TimerUnit.MikeyTimers.TimerStep` | src/timer.c:63-77 | the loop over the eight timers leaves the closed form, and returns the latch |
| `TimerUnit.MikeyTimers.IrqAck` | src/timer.c:20 | acknowledging clears exactly the bits of the mask |
| `TimerUnit.MikeyTimers.IrqRaise` | src/timer.c:21 | raising sets exactly the bits of the mask |
| `TimerUnit.DoneExactly` | src/timer.c:38 | the done and borrow-out bits are set exactly when they were or the timer underflowed, armed or not, and no other status bit changes |
| `Audio.StepSplits` | src/audio.c:75-94 | two steps of a channel are one, for any settings, barring phase overflow |
| `Audio.TicksAsTimer` | src/audio.c:83-92 | the count register goes as a timer's, and the shift register is clocked at its underflows only |
| `Audio.FeedbackBits` | src/audio.c:50-60 | the feedback is the inverted exclusive-or of the shift register bits 7, 0 to 5, 10 and 11 that the control and feedback registers switch on |
| `Audio.ClocksInClosedForm` | src/audio.c:83-92 | a reloading channel clocks its shift register once every reload + 1 periods |
| `Audio.StepInRange` | src/audio.c:49-73 | every step keeps twelve bits of shift register and an output in [-128, 128] |
| `Audio.LoudestOutput` | src/audio.c:69-71 | 128 occurs exactly at volume -128, unintegrated, on a clear low bit |
| `AudioUnit.AudioChannels.Reseed` | src/audio.c:44-46 | reseeding loads twelve bits from the two registers and keeps the range |
| `AudioUnit.ChannelLayout` | src/audio.c:31-32 | where a channel's registers lie and what the bits of its control byte say |
| `AudioUnit.AudioChannels.FeedbackBit` | src/audio.c:57-61 | the loop over the nine switches computes the inverted parity of the selected taps |
| `AudioUnit.AudioChannels.ClockLfsr` | src/audio.c:49-73 | clocking shifts, updates and mirrors the output |
| `AudioUnit.AudioChannels.AudioStep` | src/audio.c:75-94 | every channel is left as its own step says, other registers untouched, ranges kept |
| `AudioUnit.AudioChannels.Sample` | src/audio.c:96-102 | in range the sample is 48 times the mix and lies in [-24576, 24576], so the clamp never acts |
| `Screen.AddressInjective` | src/suzy.c:79 | different byte columns of the window never share an address, 16-bit wrap included |
| `Screen.PixelOnGrid` | src/suzy.c:73-87 | blitting a pixel changes that pixel of the 160x102 grid as its type says, and no other |
| `Screen.PaintOnGrid` | src/suzy.c:73-87 | after any list of pixels every grid pixel holds its old pen under all of them in order |
| `Screen.PaintInWindow` | src/suzy.c:78-86 | no byte outside the 80x102 window changes |
| `Screen.XorPaintsBack` | src/suzy.c:82 | XOR pixels painted twice restore all of RAM, overlapping and clipped ones included |
| `SpriteLaws.ChainTwin` | src/suzy.c:89-177 | what a blit decodes depends only on memory outside the window, if it reads only there |
| `SpriteLaws.BlitStaysInWindow` | src/suzy.c:89-177 | whatever the data, a blit changes only bytes of the window |
| `SpriteLaws.BlitPaintsDecoded` | src/suzy.c:89-177 | with its data outside the window, a blit paints the pixels decoded from the starting RAM in order: the grid afterwards is the old grid under them |
| `SpriteLaws.XorBlitTwice` | src/suzy.c:89-177 | a blit of XOR sprites only, its data outside the window, run twice restores all of RAM |
| `Scenes.XorSceneTwice` | src/suzy.c:82 | a stored scene of XOR sprites, its bytes outside the frame buffer, drawn twice restores all of RAM |
| `Packets.GetBitsReads` | src/suzy.c:57-65 | the bit reader returns the number whose bits memory holds, most significant first, while the RAM is being painted elsewhere |
| `Packets.PacketReads` | src/suzy.c:150-167 | a serialised run is decoded as one packet and draws its pixels |
| `Packets.PaddingDraws` | src/suzy.c:149-161 | fewer than eight zero bits at the end of a line draw nothing, whatever bytes follow, although the decoder may read into them |
| `Packets.PackedReads` | src/suzy.c:149-168 | the packed-line decoder inverts serialisation of literal and repeat runs |
| `Packets.LiteralReads` | src/suzy.c:144-148 | a totally literal line draws its pixels, and no more when less than a pixel is left over |
| `Packets.LineDraws` | src/suzy.c:134-171 | a packed or literal line stored as offset and bytes, up to 254 of them, draws exactly its pixels at consecutive columns, whatever follows in memory |
| `Packets.SpriteDraws` | src/suzy.c:130-172 | a stored sprite draws its lines, up to the 204th, and nothing else |
| `Scenes.BlockIsRead` | src/suzy.c:100-108 | a stored control block is read back: control bytes, next, data and position words |
| `Scenes.PensAreLoaded` | src/suzy.c:119-127 | the palette bytes replace the pens up to the depth and leave the rest |
| `Scenes.ScbDraws` | src/suzy.c:99-174 | one stored control block draws its sprite's pixels and leads to the next |
| `Scenes.PixelPlace` | src/suzy.c:103-163 | every pixel of a block lies where position, origin, flip bits 5 and 4 of the first control byte and its place in the data put it, in the pen its value selects |
| `Scenes.ScenePixel` | src/suzy.c:98-175 | the same for every pixel of a scene, with the pens the blocks before it left |
| `Scenes.ChainDraws` | src/suzy.c:98-175 | a stored chain draws its blocks in order, up to the 256th, the pens carried from block to block |
| `Scenes.SceneIsDrawn` | src/suzy.c:89-177 | the blitter, reading the RAM it is painting, inverts the storage of a whole scene: with the scene's bytes outside the frame buffer it paints exactly the scene's pixels |
| `SuzyUnit.SuzyBlitter.BitsGet` | src/suzy.c:57-65 | the bit-reader loop returns, and moves the reader, as the recursive reader that GetBitsReads inverts |
| `SuzyUnit.SuzyBlitter.BlitPixelAt` | src/suzy.c:73-87 | the early returns and the read-modify-write of one nibble leave RAM with just that pixel painted |
| `SuzyUnit.SuzyBlitter.LiteralLine` | src/suzy.c:144-148 | the loop over a totally literal line draws, in place, exactly what the recursive decoder draws and stops where it stops |
| `SuzyUnit.SuzyBlitter.PackedLine` | src/suzy.c:149-168 | the loop over the packets of a line draws, in place, exactly what the recursive decoder draws and stops where it stops |
| `SuzyUnit.SuzyBlitter.SpriteLines` | src/suzy.c:130-172 | the loop over the lines ends at a zero offset or after 204 lines, with every line drawn as decoded |
| `SuzyUnit.SuzyBlitter.LoadPalette` | src/suzy.c:120-127 | the loop over the palette bytes loads the pen table in place, and leaves the pens past the depth alone |
| `SuzyUnit.SuzyBlitter.SuzyBlit` | src/suzy.c:89-177 | the whole blit in place on RAM leaves the starting RAM with the decoded pixels painted |
| `Video.ColorComponents` | src/video.c:19-27 | the colour's components are the palette nibbles times 17 |
| `Video.VideoRender` | src/video.c:29-40 | the nested loops fill the frame with the palette's colour of each grid pixel |
| `Video.FrameAfterBlit` | src/video.c:29-40 | draw/readout agreement: the frame rendered after a blit into the displayed buffer shows the old pens under all decoded pixels |
| `Video.FrameOfScene` | src/video.c:29-40 | the frame shows a stored scene's pixels over the old pens |
| `Serial.RingPut` | src/serial.c:47-48 | storing at the tail appends to the ring's contents |
| `Serial.RingTake` | src/serial.c:55-56 | taking at the head removes the first byte |
| `Serial.RingSize` | src/serial.c:26-27 | the ring holds at most 255 bytes; it is empty and full exactly by its index tests |
| `Serial.Uart.RxPush` | src/serial.c:41-50 | the ring refines a 255-byte queue: a byte is refused exactly when it is full, and then OVERRUN is set |
| `Serial.Uart.ReadSerdat` | src/serial.c:52-60 | reading pops the oldest byte, 0 when none waits, and keeps interrupting while more wait |
| `Serial.Uart.ReadSerctl` | src/serial.c:61-66 | RXRDY exactly when a byte waits, OVERRUN as it stands, transmitter always ready |
| `Serial.Uart.WriteSerdat` | src/serial.c:69-76 | a transmitted byte goes to the hook and interrupts when armed |
| `Serial.Uart.WriteSerctl` | src/serial.c:77-82 | control writes reset errors on request and interrupt at once when a byte waits |
| `Link.FirstInFirstOut` | src/serial.c:41-60 | over any run of accesses, what waited and was accepted is what was read and still waits, in order |
| `Link.OverrunExactly` | src/serial.c:44 | OVERRUN is set exactly when a byte was refused, or it was set at the start, and no reset came since |
| `Link.AccessServices` | src/serial.c:36-39 | bringing or taking a byte, or writing the control register, interrupts when a byte waits and receive interrupts are armed |
| `Link.StaysServiced` | src/serial.c:36-82 | no run of accesses leaves a waiting byte unannounced |
| `Link.InterruptHasCause` | src/serial.c:36-82 | the interrupt bit is set only for a waiting byte or a byte sent, when armed |
| `Link.TransmitByte` | frontend/src/net.c:9-15 | a write to SERDAT with the bridge as its hook is one transmit step of the link, the port's and the channel's; without a peer the port does the same and the byte is dropped |
| `Link.NetPump` | frontend/src/net.c:17-26 | a pump moves a prefix of the pending bytes into the UART in order, and all of them when the transport returns as much as fits |
| `Link.LinkIsFaithful` | frontend/src/net.c:9-26 | over any run of two bridged units and in each direction, the bytes read, waiting and in flight are a subsequence of the bytes sent, and all of them exactly when none was refused |

## Left out

- Hardware-mapped reads, MAPCTL overlays and self-modifying code in the simulation: time and peripheral state would enter the relation; the peripherals are proved separately.
- BRK, WAI and STP in the simulation: the emitter lowers them to a hook or plain returns (`Emit.EndsExactly`), which deliberately differ from the interpreter.
- TSX and TXS in call-level simulation: they show the stack pointer, which differs by the erased return addresses; they are covered in `Runs.LocalRunAgrees`.
- The C text: statements are a datatype; comments, formatting, register annotation and file writing are presentation.
- lynx_call_addr and the frame hook: calls into registered handlers; a handler is a list of accesses.
- lynx_cpu.pc: recompiled code does not keep it.
- Timer registers as memory: the RAM of a run is flat, so the timers that ticks find, or handlers leave, are given with a run; audio is stepped by `Tick` and has no effect on the processor.
- The reset vector and `lynx_cpu_reset`: assignments of constants.
- Interp NMI entry: as IRQ entry with another vector, and nothing raises it.
- Interpreter events and tracing: they do not affect the machine.
- Timer and serial save-state, Suzy's multiplier and divider, input registers: easy members.
- Sprite scaling, tilt, stretch, collision, and linked audio clocks: there is no code for them.
- WAV, PPM and `.lnx` files, command-line drivers, the SDL front end and sockets: plumbing and I/O.
- Timer 4's use as the serial byte clock: transmission is immediate in the source.
- Link.NetPump: `mp_link_recv` returning -1 (connection lost) is the same as 0 to the pump; bytes that arrive while a pump runs are taken by the next one.
- Serial.Uart.WriteSerdat: the transmit hook is the returned byte; a unit without a hook drops it.
- Interrupts.LynxIrqEnter: ends where the handler is called through the dispatch table.
- Runs.RunSimulates: after a hook has been handed an address the run is over; what the hook's fallback does is not modelled.
- Packets.LineDraws: says nothing about lines cut in the middle of a packet or with a packet of count 0 before their end; `SuzyUnit` proves what is drawn for them too, as a recursive decoder.
- Simulation.EscapeAgrees: for a call into code that was not recompiled it says nothing about the two return-address bytes, which only the interpreter pushes.
