# Verified models of the spectrometer's acquisition software

These Dafny modules model the parts of the repository that turn an NMR pulse sequence into a program
for the radio board, estimate how long an experiment takes, enumerate an arrayed experiment, and run
it under a protocol of files, queues and access records. Each model follows the branches, constants
and edge cases of the C code, and the modules prove what that code achieves for all inputs, all runs
or all interleavings. Where the code falls short of what its comments or names promise, the model
keeps the code and a lemma says exactly when the promise holds.

`dafny verify dfyconfig.toml` checks everything.

## How the modules fit together

**Pulse programs** (`Phase`, `PulseText`, `PulseGenerator`, `Board`, `B12Compiler`, `PulseMeaning`,
`PulseCorrectness`, `PulseTheorems`, `PulsePhases`, `PulsePower`, `PulseInFull`, `PulseExact`,
`PulseShows`, `PulseTiming`, `PulseExpTime`, `PulseTriggers`). A user's pulse
sequence is a list of calls. `PulseGenerator.Generator` is the generator with its fields (phase
tables, power registers, the one-element buffer `lastElem`, the total time); its `CreatePS` is proved
to write `PulseText.ProgramText`. `B12Compiler.B12Proc` is the compiler's dispatch loop, proved to
build `B12Compiler.Compile`. `Board` is the machine the opcodes are for: LOOP loads a counter on entry,
END_LOOP counts it down and jumps to the recorded instruction. `PulseMeaning` says independently, call by
call, what one scan is, with actions of its own; the theorems compare the board's trace with nt such
scans, and `PulseShows` spells out each instruction of them. A trace entry has the pulse, phases, trigger,
duration, and also power and status. `Strip` leaves the last two out, because scans hand them to each
other; `PulseInFull` and `PulseExact` say when nothing has to be left out.

**Time simulator** (`DpsNodes`, `DpsDivision`, `DpsBlocks`, `DpsRun`, `DpsTermination`, `DpsSimulator`,
`DpsUnrolled`, `DpsExact`, `DpsCollapse`, `DpsTimer`, `DpsEvolution`, `DpsWaits`). The interpreter of the
node list is a small-step machine over a stack of levels; `DpsSimulator.Simulator` holds the source's
parallel arrays and is proved to take exactly those steps, with each method's effect on the arrays given
outright. `DpsBlocks.Run` is what the machine leaves behind on a well-nested list, with its collapsed
loops; `DpsUnrolled.Full` makes every pass of every loop, and `DpsExact` and `DpsCollapse` say when the
two times are the same, and by how much they differ. `DpsTimer` is the sum over arrayed
parameters, `DpsEvolution` the shortcut for the delays d2, d3 and d4 in any nest of levels, and `DpsWaits`
the same for the times that the simulator gives to a scan that waits those delays.

**Arrays** (`ArrayText`, `ArrayParser`, `ArrayIds`, `ArrayDims`, `ArrayLoops`, with `Arithmetic` and
`Common`). The string parser that overwrites its own text, the second reading of the same string, the
dimensions put in front of it, the nested loops, and the arithmetic that inverts them.

**Lock file** (`FileLock`). Any number of processes, each step of `lockit` and `unlockit` atomic, with
crashes and with a `link` that works but reports failure.

**Acquisition control** (`AcquisitionRequests`, `AcquisitionRecords`, `ConsoleAccess`, `AccessTable`).
The halt and abort handshake between Expproc and B12proc, the records a run posts, and the table of
who has reserved the console.

**Streaming state** (`StatusPorts`, `StatusRegistry`, `RfPower`, `MpsReply`). The linked list of
display ports on the heap, the circular buffers of RF power, the chunked reply reader.

## Where the code and its promises differ

- A looped program performs nt scans exactly when three things hold (`RunsNtScansExactly`): the loop is
  placed well (`PulseTheorems.LoopPlacedWell`: at least two emitting elements in the cycle, the first of
  them one instruction long, the last call an emitting one); it keeps the status and the power
  (`PulseInFull.LoopKeeps`: what a scan leaves is what it began with, or the sequence sets it before it
  shows); and every table that the sequence reads is, one cycle of scans further on, where it was
  (`PulseExact.TablesRepeat`). Remainder scans are numbered from the length of one cycle, not from the
  scans already done, and the cycle is the longest table, not a common multiple, so a table whose length
  does not divide it is right only by its contents (`EntriesExact`, `DividingIsRight`); tables below t1
  do not even count (`LowTablesIgnored`). The number of acquisitions is right more often (`TriggersExact`).
- Only looped scans set the transmitter power. With fewer than two cycles the power is right only if the
  sequence sets it before a pulse, or the transmitter power is full power and stays so
  (`RunsUnloopedInFull`, `UnloopedRunsAtFullPower`). An amplitude that quantises to -1 is taken for an
  unused register: it is ignored while a register is free (`MinusOneIsFullPower`) and aborts the sequence
  once all four are taken, so acceptance depends on the order of the calls (`PowersProgrammed`).
- exp_time is the board's time on exactly the programs of `PulseExpTime.TimeKept`. A negative ringdown
  delay is subtracted from it but not from the board's time; an END_LOOP that overwrites LOOP multiplies
  what is performed once; one that slips into the remainder need not change it (`RingsDownExact`).
- RT_LE compares with `<` (`LeMissesEquality`). INCDLY never adds time (`IncDlyAddsNothing`). A
  collapsed loop is given n times its first pass, which is right just when the passes take that together
  (`CollapsedExactly`); a whole program's time is off by what its collapsed loops miss (`TimeIsOff`), and
  when no pass takes longer than the first, or none less, right only if all take the same
  (`TimeExactlyUnrolled`). `DependentLoopMiscounted` is 2 instead of 1.
- The two-point shortcut for d2, d3 and d4 starts from whatever value the delay holds. Every entry but
  the first finds it at its last value, so in 3D and 4D experiments, and under arrays, the estimate is too
  long: by `Off`, for any nest and any times (`EstimateIsOff`). For a scan that waits its delays it is never
  too short, and exact if and only if no delay that steps stands below another delay or an array of two or
  more values (`WaitsExactlyWhen`; `SmallestMiscount` is 3 instead of 2).
- `parse` takes one trailing comma. `findWord` finds any name that ends in the key (`FoundExactly`), so
  such a name keeps a dimension out (`SetupParses`).
- A waiter for the lock compares the clock with the expiry of the lock it first saw: it takes the lock of
  a process that is gone without harm (`ExpiredLockTaken`), and that of a live one too
  (`StaleExpiryReached`).
- An abort is reported as complete when an older `_halt` file is there, which a late halt leaves
  behind (`OutcomeIsFirstRequest`, `HaltFileLeft`, `LateHaltLeavesFile`, `StaleHaltMisreports`).
- Reservations are counted but one release wipes the record: releases free the level exactly when it was
  reserved once (`SecondReleaseRefused`); a level that is not recognised is refused and stored whenever a
  slot is free (`UnrecognisedStored`), at the cost of the next level's record (`UnrecognisedFills`); hosts
  whose names fit are not told apart (`HostsNotTold`); releasing by reserving "none" works from the
  second slot only (`ReserveNothing`).
- A sweep over the display ports sends to the entry behind an expired one without looking at its time
  (`SweepIsFresh`).
- A tuning reply with a single field is dropped (`ReplyReadBack`).

## Model

| member | source | states |
|---|---|---|
| Phase.PhaseTables.InitPhaseTables | src/bpsg/phase.c:30-75 | leaves the tables in their initial state: the receiver's 0 to 3, or 0 with cp, and in use; the constants 1 to 3; every other table the one entry 0 |
| Phase.PhaseTables.SetTable | src/bpsg/phase.c:87-99 | replaces one table's entries and keeps its flag and every other table |
| Phase.PhaseTables.GetPhase | src/bpsg/phase.c:77-85 | entry index mod length of the table; phase 0 for an unknown one |
| Phase.PhaseTables.GetRecPhase | src/bpsg/phase.c:122-131 | the receiver table's entry, cyclically |
| Phase.PhaseTables.MaxPhaseCycle | src/bpsg/phase.c:106-119 | the loop finds the longest cycle among the receiver table and the tables in use |
| Phase.PhaseCycleIsLeastBound | src/bpsg/phase.c:106-119 | the cycle is the least number that no length in use exceeds, and no more than that: it need not be a common multiple |
| PulsePhases.InUseWithinCycle | src/bpsg/phase.c:106-119 | the receiver's table and every in-use table from t1 on are no longer than the cycle |
| PulsePhases.LowTablesIgnored | src/bpsg/phase.c:106-119 | what settable makes of a table below t1 does not change the cycle |
| PulseGenerator.Generator.AddPowerVal | src/bpsg/b12funcs.c:56-81 | succeeds if the quantised amplitude is among the registers or a fourth is free; it is added unless it is there or is -1 |
| PulseGenerator.Generator.GetPowerRegister | src/bpsg/b12funcs.c:42-54 | the register that holds the amplitude; register 0 when none does |
| PulseText.Quantised | src/bpsg/b12funcs.c:42-57 | the register value is ten times the amplitude and a tenth, cut off toward zero |
| PulseGenerator.Generator.RgPulseElement | src/bpsg/b12funcs.c:105-121 | marks the table in use while dry; otherwise flushes the buffered element and buffers the pulse with this scan's phase |
| PulseGenerator.Generator.AcquireElement | src/bpsg/b12funcs.c:140-150 | the acquisition with its receiver phase goes through the buffer and counts as a trigger |
| PulseGenerator.Generator.Perform | src/bpsg/b12funcs.c:92-179 | every kind of call, on the dry pass and on the emitting one; a status call writes whether its letter of xm is y, the last letter standing for all beyond |
| PulseText.CallWrites | src/bpsg/b12funcs.c:92-179 | what each kind of call writes, given outright: the entry of its own table, the delays of the sequence or its own, the status letter, the register that holds the amplitude |
| PulseGenerator.Generator.EndElems | src/bpsg/b12funcs.c:181-189 | the element still buffered is written and nothing is lost |
| PulseGenerator.Generator.EmitCycle | src/bpsg/cps.c:183-206 | the looped scans are written one after the other, the last with NSC_ENDLOOP before its last element |
| PulseText.EndloopIsSecondLast | src/bpsg/cps.c:201-205 | NSC_ENDLOOP is written before the last element of the cycle |
| PulseGenerator.Generator.EmitRemainder | src/bpsg/cps.c:207-223 | the scans left over follow, with indices that go on from the cycle |
| PulseGenerator.Generator.CreatePS | src/bpsg/cps.c:102-233 | the text and the total time are ProgramText and ProgramTime of the calls; it fails only when the powers do not fit |
| PulseText.LinesConcat | src/bpsg/b12funcs.c:92-179 | the elements of two sequences run after each other are those of the joined one, with the tables the first leaves |
| PulseText.TablesSettled | src/bpsg/cps.c:160-170 | the emitting pass reads the tables that the dry pass left |
| PulseText.LegalCalls | src/bpsg/phase.c:87-99 | the sequences spoken of: tables up to 24, and one to thirty-two entries set |
| B12Compiler.B12Proc.ResetExp | src/b12proc/b12proc.c:435-452 | after a LOOP the address is remembered; after an END_LOOP the time so far is multiplied by the count |
| B12Compiler.B12Proc.DispatchDelay | src/b12proc/b12proc.c:711-731 | a positive delay is one instruction, with the pending opcode, and adds its duration to exp_time; any other is nothing |
| B12Compiler.B12Proc.DispatchAcquire | src/b12proc/b12proc.c:815-836 | an acquisition is one triggering instruction with the pending opcode |
| B12Compiler.B12Proc.DispatchPulse | src/b12proc/b12proc.c:732-813 | for a positive width a blank delay with the amplifier unblanked, the pulse at its phase with the power and shape in use, and a ringdown with all gates closed, each in nanoseconds; the pending opcode goes on the last; nothing otherwise |
| B12Compiler.B12Proc.ProgramPulse | src/b12proc/b12proc.c:743-812 | those instructions and the seconds they add to exp_time |
| B12Compiler.PulseCompiled | src/b12proc/b12proc.c:732-813 | the whole state after a pulse line, given outright |
| B12Compiler.LinePrograms | src/b12proc/b12proc.c:685-872 | which other lines program the board, with which instruction, and what they add to exp_time |
| B12Compiler.LineSets | src/b12proc/b12proc.c:578-848 | the status, the power, the shape, the pending operation and the loop count after each line |
| B12Compiler.B12Proc.Dispatch | src/b12proc/b12proc.c:551-888 | one line changes the state as CompileLine says |
| B12Compiler.B12Proc.Run | src/b12proc/b12proc.c:551-888 | the whole text gives the board program, the time and the controls of Compile |
| Board.PerformsOnce | src/b12proc/b12proc.c:849-888 | a board program performs at most one trace |
| Board.LoopedProgram | src/b12proc/b12proc.c:698-709 | a program with one loop performs its head, the body as often as the count says, and its tail |
| PulseMeaning.ScansMeaning | src/bpsg/cps.c:183-223 | the lines of a range of scans, compiled without a loop, are those scans of the sequence and nothing else, power and status aside (ScansFit says when those are right too) |
| PulseMeaning.RepeatedScans | src/bpsg/cps.c:183-206 | when every cycle used divides m, n repetitions of scans 0 to m-1 are scans 0 to nm-1 |
| PulseMeaning.UsesDivideIs | src/bpsg/phase.c:77-85 | which lengths have to divide: those of the receiver's table at every acquisition and of the tables of the pulses performed, as they are by then |
| PulseCorrectness.LoopPerforms | src/b12proc/b12proc.c:700-888 | what the board does with any looped text: which instruction LOOP lands on, where END_LOOP lands, and the trace that follows |
| PulseCorrectness.LoopTraceExact | src/b12proc/b12proc.c:700-888 | that trace is body, repeated, then rest, if and only if the two opcodes landed on the first and last instruction |
| PulseTheorems.PlacedWellOnLines | src/bpsg/cps.c:183-206 | the condition on the emitted text is the condition on the user's calls |
| PulseTheorems.PlanIs | src/bpsg/b12funcs.c:196-213 | the cycle is looped if and only if it fits twice into nt; looped and remaining scans are nt, and fewer than a cycle remain |
| PulseTheorems.RunsNtScans | src/bpsg/cps.c:183-223 | with every cycle dividing the loop's, the board performs the looped text, and its trace is nt scans of the sequence, power and status aside, if and only if the loop is placed well (RunsNtScansExactly has neither limit) |
| PulseTheorems.RunsUnloopedScans | src/bpsg/cps.c:207-223 | without a loop the trace is nt scans whatever the tables are, power and status aside (RunsUnloopedInFull) |
| PulseShows.PulseShows | src/b12proc/b12proc.c:732-813 | in scan s of the nt scans a pulse call is, at its place in the trace, the blank delay, the transmission at entry s mod length of its table, in quarter turns, and the ringdown |
| PulseShows.AcquireShows | src/b12proc/b12proc.c:815-836 | an acquisition is, after alfa, the one triggering instruction, with entry s mod length of the receiver's table |
| PulseShows.DelayShows | src/b12proc/b12proc.c:711-731 | a delay is one instruction of that length |
| PulseShows.StatusShows | src/bpsg/b12funcs.c:168-179 | after a status call, up to the next, every instruction has status 1 or 0 by the letter of xm |
| PulseShows.NoStatusShows | src/bpsg/cps.c:193-200 | before the first status call of a scan the status is 0 |
| PulseShows.PowerShows | src/bpsg/b12funcs.c:152-166 | after a power call, up to the next, pulses are at the register that holds the amplitude, 0 if none does, and shaped unless it is 0 |
| PulseShows.NoPowerShows | src/bpsg/cps.c:193-200 | before the first power call of a scan they are at the register of the transmitter power |
| PulseShows.ResetShows | src/bpsg/cps.c:193 | the phase is reset up to the first call that performs anything |
| PulseShows.TableShows | src/bpsg/phase.c:87-99 | a table holds what the scan has last put into it |
| PulseShows.TableLeft | src/bpsg/cps.c:160-170 | or else what the sequence last puts into it |
| PulseShows.TableUnset | src/bpsg/phase.c:30-75 | or else what it held to begin with |
| PulsePhases.EntriesExact | src/bpsg/b12funcs.c:196-213 | scan s uses entry s mod length, for all scans and a table of any length, if and only if there is no loop or the length divides the cycle |
| PulsePhases.LoopedIsIndexed | src/bpsg/cps.c:183-223 | without any divisibility, with or without power and status: the loop and the remainder are scan after scan, each with the index createPS gave it |
| PulseTriggers.TriggersCounted | src/b12proc/b12proc.c:700-888 | how many acquisitions the board triggers, for every sequence, looped or not, placed well or not |
| PulsePhases.NtScansTrigger | src/bpsg/b12funcs.c:140-150 | every trace that is nt scans of the sequence, power and status aside, has nt times the acquisitions of one scan: the number to compare with |
| PulseTriggers.TriggersExact | src/bpsg/b12funcs.c:140-150 | they are nt times those of a scan if and only if END_LOOP is written, is not on top of LOOP, and takes no acquisition of the remainder in |
| PulseTriggers.TriggersNtTimes | src/bpsg/b12funcs.c:140-150 | so a sequence that acquires once per scan triggers nt times if and only if that |
| PulseTiming.ReportedTimeIsNtScans | src/bpsg/cps.c:183-223 | the time createPS reports is nt times the sequence's |
| PulseExpTime.GapIs | src/b12proc/b12proc.c:435-452 | by how much the board's time and exp_time differ, for each of the four ways the two operations can land |
| PulseExpTime.ExpTimeExact | src/b12proc/b12proc.c:435-452 | for every sequence, looped or not, placed well or not: exp_time at PULSEPROG_DONE is the board's time, STOP included, if and only if TimeKept, a condition on the calls |
| PulseExpTime.RingsDownExact | src/b12proc/b12proc.c:752-813 | without negative ringdowns: if and only if nothing is looped, END_LOOP is never written, or the first element is one instruction and not the only one |
| PulseExpTime.WellPlacedExact | src/b12proc/b12proc.c:752-813 | with the loop placed well: if and only if no performed pulse has a negative ringdown |
| PulsePower.PowersProgrammed | src/bpsg/b12funcs.c:30-87 | every sequence, amplitudes that quantise to -1 included: accepted if and only if full power, the transmitter power and the powers asked for, -1 aside, are at most four, and -1 is never asked for once four are taken; then registers are distinct and hold just those, register 0 is full power, and every POWER line but those of -1 names the register with its value |
| PulsePower.NoMinusOneFits | src/bpsg/b12funcs.c:56-81 | where -1 is not asked for, that is: at most four powers, in any order |
| PulsePower.MinusOneIsFullPower | src/bpsg/b12funcs.c:42-81 | an amplitude that quantises to -1 is never programmed and runs at full power |
| PulseInFull.ScansFit | src/bpsg/cps.c:183-223 | a row of scans is performed with the power and status asked for if and only if the first fits what it finds and any other fits what a scan leaves |
| PulseInFull.RunsUnloopedInFull | src/bpsg/cps.c:207-222 | without a loop the whole trace, power and status included, is nt scans if and only if the sequence sets them before they show, or what the scans find is what they ask for |
| PulseInFull.UnloopedRunsAtFullPower | src/bpsg/cps.c:207-222 | too few scans for a loop: every pulse of a sequence that leaves the power alone is at register 0 |
| PulseInFull.RunsNtScansInFull | src/bpsg/cps.c:183-223 | with every cycle dividing the loop's, the whole trace is nt scans if and only if the loop is placed well and keeps the status and the power |
| PulseExact.ScanReads | src/bpsg/phase.c:77-85 | two indices give the same scan if and only if every table that the scan reads has the same phase there |
| PulseExact.CycleRight | src/bpsg/b12funcs.c:196-213 | a table, however long, has the right phase in every scan of a looped program if and only if it repeats after one cycle |
| PulseExact.PhasesRightWhen | src/bpsg/cps.c:183-223 | every scan finds its phases if and only if every table that the sequence reads repeats after one cycle |
| PulseExact.RunsNtScansExactly | src/bpsg/cps.c:183-223 | for every looped sequence: the whole trace is the nt scans, which the PulseShows lemmas give call by call, if and only if the loop is placed well, keeps status and power, and every table read repeats after one cycle |
| PulseExact.DividingIsRight | src/bpsg/b12funcs.c:196-213 | a table whose length divides the cycle repeats |
| DpsNodes.LeMissesEquality | src/bpsg/xmath.c:1677-1680 | RT_LE is right exactly when the operands differ |
| DpsRun.SkipBlock | src/bpsg/xmath.c:1694-1717 | the search for ELSENZ or ENDIF passes over any well-nested block, whatever is in it |
| DpsRun.BlockGoes | src/bpsg/xmath.c:1856-2017 | from any point of a run, a well-nested block takes as many turns as Run says and leaves its time, its request for a rerun and its variables |
| DpsRun.LoopOfDelay | src/bpsg/xmath.c:1720-1792 | a hardware loop of one delay takes the delay times its count, and once for a count below 1 |
| DpsRun.TwoChannels | src/bpsg/xmath.c:1795-1853 | two delays on two channels take as long as the longer |
| DpsTermination.Unwinds | src/bpsg/xmath.c:1755-1773 | from any sound state, nested or not, the run stops or leaves its level; the measure is the idle levels, the passes to go and the nodes ahead |
| DpsTermination.Stops | src/bpsg/xmath.c:1856-2017 | the simulator stops on every node list |
| DpsSimulator.Simulator.SetDpsLoop | src/bpsg/xmath.c:1720-1736 | a level is entered with no time and with the variable as its count, at least 1; at the deepest nothing happens |
| DpsSimulator.Simulator.EndDpsLoop | src/bpsg/xmath.c:1753-1792 | with another pass asked for and to go: one pass fewer, in the counter too, and back to the start; otherwise the time times the count goes to the level below |
| DpsSimulator.Simulator.EnterSloop | src/bpsg/xmath.c:1937-1944 | LOOP: the counter begins with the count of the new level |
| DpsSimulator.Simulator.EnterMsloop | src/bpsg/xmath.c:1948-1979 | MSLOOP: count and counter are the nearest whole number to the value |
| DpsSimulator.Simulator.EnterRlloop | src/bpsg/xmath.c:1998-2004 | RLLOOP: likewise for a whole number |
| DpsSimulator.Simulator.DpsIfStmt | src/bpsg/xmath.c:1646-1718 | where the run goes on after a test or an else: at the next node just when the comparison holds (for RT_LE, when it is less), which the target variable tells, otherwise at the other branch |
| DpsDivision.DividesTowardZero | src/bpsg/xmath.c:1606-1631 | quotient and remainder of RDIVN and RMODN are the only ones that make up the dividend, with a remainder smaller than the divisor and of the dividend's sign |
| DpsDivision.ArithIs | src/bpsg/xmath.c:1583-1640 | what each of the twelve operations computes: sum, difference, product, one more or less, the double, and halves, quotients and remainders cut off toward zero, with 1 for a zero divisor |
| DpsSimulator.Simulator.SetRTval | src/bpsg/xmath.c:1198-1208 | the nearest whole number, halves away from zero; no other variable changes |
| DpsSimulator.Simulator.LeafNodeTurn | src/bpsg/xmath.c:1889-1918 | a timed node adds its width when that is positive, INCDLY asks for every pass, SETVAL sets the nearest whole number |
| DpsSimulator.Simulator.RtValCmd | src/bpsg/xmath.c:1576-1643 | only the target variable changes, to what the operation makes of the values the operands had, given for each of the twelve |
| DpsSimulator.Simulator.StartParallelTime | src/bpsg/xmath.c:1795-1832 | the open channel is closed and the next opened on a level of its own |
| DpsSimulator.Simulator.EndParallelTime | src/bpsg/xmath.c:1834-1853 | the level outside gains the time of the longest channel, the open one included, or nothing if all are 0; the times are cleared |
| DpsSimulator.Simulator.SimulateDpsCode | src/bpsg/xmath.c:1856-2017 | the arrays end in the state that the turns reach from the initial one, on every list |
| DpsSimulator.IncDlyReruns | src/bpsg/xmath.c:1874-1918 | with the delays zeroed at the start INCDLY adds no time and only forces a rerun |
| DpsSimulator.IncDlyAddsNothing | src/bpsg/xmath.c:1874-1918 | so for every list and any number of turns, the variable that an INCDLY names makes no difference |
| DpsExact.StopsWithRun | src/bpsg/xmath.c:1856-2017 | on a well-nested list the run stops past the block with Run's time at level 0, whatever older nodes follow LAST_CODE |
| DpsExact.RunIsFull | src/bpsg/xmath.c:1755-1792 | collapsed and unrolled readings agree, in time and in every variable that matters, when no time reads a variable that may differ between passes |
| DpsExact.TimeIsUnrolled | src/bpsg/xmath.c:1721-1853 | the time left in timers[0] is that of the fully unrolled program |
| DpsUnrolled.AssignedIsClean | src/bpsg/xmath.c:1755-1792 | what that check lets through: a variable may be tested once it is assigned a number, or a result or a comparison of variables that are the same in every pass |
| DpsUnrolled.RerunIsClean | src/bpsg/xmath.c:1755-1792 | and in a loop that asks for every pass its counter may be used in each |
| DpsUnrolled.IdleIsClean | src/bpsg/xmath.c:1913-1918 | and an INCDLY of no delay and a parallel section of pauses always |
| DpsCollapse.CollapsedExactly | src/bpsg/xmath.c:1755-1792 | the time of a collapsed loop is right if and only if its passes take together n times the first; with no pass longer than the first it is never too short, with none shorter never too long, and in both cases right if and only if all take the same |
| DpsCollapse.RunIsOff | src/bpsg/xmath.c:1755-1792 | for every well-nested block, loops within loops included, whose first passes read nothing that may differ: the simulator's time is the unrolled one and what the collapsed loops miss, n first passes less all n of them, wherever those passes lie |
| DpsCollapse.RunIsJudged | src/bpsg/xmath.c:1755-1792 | with every pass of a collapsed loop on one side of its first, the time of such a block is on the other side of the unrolled one, and the same if and only if all passes take the same |
| DpsCollapse.TimeIsOff | src/bpsg/xmath.c:1721-1853 | the time left in timers[0] is the unrolled program's and what its collapsed loops miss: the same if and only if they miss nothing in all |
| DpsCollapse.TimeExactlyUnrolled | src/bpsg/xmath.c:1721-1853 | so, with those passes on one side, it is on one side of the unrolled program's, and the same if and only if every collapsed loop's passes take the same |
| DpsCollapse.CleanIsEven | src/bpsg/xmath.c:1755-1792 | what TimeIsUnrolled asks of the text is the case in which no collapsed loop's passes differ |
| DpsCollapse.DependentLoopMiscounted | src/bpsg/xmath.c:1755-1792 | a loop whose passes take 1 and 0: counted 2 instead of 1 |
| DpsTimer.Timer.CalDpsTimer | src/bpsg/xmath.c:1210-1315 | the recursion over the parameters returns Cal and leaves the parameters as Cal does |
| DpsTimer.Timer.SetLevel | src/bpsg/xmath.c:1277-1307 | every parameter of a loop takes its own value with the loop's index, and no other changes |
| DpsTimer.SweepsAreExact | src/bpsg/xmath.c:1276-1315 | with plain and parenthesised arrays the total is the sum over every combination of values |
| DpsTimer.SweepsAreTuples | src/bpsg/xmath.c:1276-1315 | the total is the sum, over all tuples of indices, of the time with every parameter at its own value for its loop's index |
| DpsTimer.ThreeValues | src/bpsg/xmath.c:1276-1315 | one array of three values: the scan is timed once with each |
| DpsEvolution.EstimateIsOff | src/bpsg/xmath.c:1262-1315 | for any nest of arrays and delays, whatever the times and the values held on entry: the total is the sum over every combination, and Off |
| DpsEvolution.NiExactlyWhen | src/bpsg/xmath.c:1262-1275 | an innermost delay for which n/2 times first and last is right: exact if and only if there are no values, or the time at the value held on entry is that at the first |
| DpsEvolution.NiSlopeWhen | src/bpsg/xmath.c:1262-1275 | for times that are a straight line in the non-negative delay: if and only if it holds its first value on entry, has no effect, or has no values |
| DpsEvolution.TwoDelaysExactlyWhen | src/bpsg/xmath.c:1262-1275 | a 3D experiment: exact if and only if the outer delay has no values, the inner does not step, or its last value takes as long as its first under the last value of the outer |
| DpsEvolution.ReenteredExactlyWhen | src/bpsg/xmath.c:1262-1315 | a delay under any number of arrays: exact if and only if it has no values, or all calls but the first take, together, no longer at its last value than at its first |
| DpsEvolution.EstimateExactlyWhen | src/bpsg/xmath.c:1262-1315 | any nest, where no call takes less time at the last value of its delay than at the first: never too short, and exact if and only if no delay is entered again where it matters |
| DpsEvolution.GrowingExactlyWhen | src/bpsg/xmath.c:1262-1315 | any nest, where the time of one combination grows evenly over the values of every delay: never too short, and exact if and only if no delay that steps stands below another or below an array of two or more values |
| DpsWaits.WaitsEvenly | src/bpsg/xmath.c:1889-1890 | the time that the simulator gives to a scan that waits its delays, none of them negative, grows evenly over the values of each |
| DpsWaits.WaitedSlope | src/bpsg/xmath.c:1889-1890 | it is a straight line in each such delay and gains a second for each second of it as often as it is waited |
| DpsWaits.WaitsExactlyWhen | src/bpsg/xmath.c:1262-1315 | so the estimate for such a sequence is never too short, and right if and only if no delay that steps stands below another or below an array of two or more values |
| DpsEvolution.SmallestMiscount | src/bpsg/xmath.c:1262-1275 | two values of d3 and of d2: 3 instead of 2 |
| DpsTimer.LeafTime | src/bpsg/xmath.c:1325-1389 | at most sixteen scans are simulated, as long as they ask for it, and the time times their number is nt times their sum; steady-state scans take as long as the first, and are added to every combination when ss is negative, otherwise kept apart once |
| ArrayText.ParseExactly | src/bpsg/arrayfuncs.c:213-404 | a string is taken as a list of loops if and only if it prints that list, with or without one trailing comma |
| ArrayText.PrintParses | src/bpsg/arrayfuncs.c:213-404 | parsing inverts printing |
| ArrayText.NameAlone | src/bpsg/arrayfuncs.c:206-311 | a string is a single loop with that name if and only if it is letters, digits, _, $ and #, and does not begin with a digit |
| ArrayText.TwoNames | src/bpsg/arrayfuncs.c:213-404 | two names in parentheses are one loop, without them two |
| ArrayParser.Parser.Setup | src/bpsg/arrayfuncs.c:420-479 | the name becomes the given variable of the given loop, and earlier loops stay |
| ArrayParser.Parser.InSingle | src/bpsg/arrayfuncs.c:275-311 | state 1 keeps the meaning of the text still to come |
| ArrayParser.Parser.InSetWord | src/bpsg/arrayfuncs.c:335-371 | state 3 likewise, for a name of a diagonal set |
| ArrayParser.Parser.Run | src/bpsg/arrayfuncs.c:213-404 | returns 0 just for strings that parse; then the loops are those of the list, their number is narrays, and the text is cut at its commas and closing parentheses and nowhere else |
| ArrayIds.ParseArray | src/bpsg/xmath.c:170-236 | the loop over the characters gives ArrayList |
| ArrayIds.IdsAreLoops | src/bpsg/xmath.c:170-236 | on a printed list every variable gets the number of the loop that parse puts it in, and the right kind |
| ArrayIds.EntriesOf | src/bpsg/xmath.c:170-236 | a variable is in the list with a number if and only if the loop of that number has it, and is marked as parenthesised just when it is |
| ArrayDims.FindWord | src/bpsg/psg.c:1067-1083 | true if and only if some occurrence of the key is followed by a comma, a closing parenthesis or the end |
| ArrayDims.FoundExactly | src/bpsg/psg.c:1067-1083 | on an array string that is: some parameter's name ends in the key |
| ArrayDims.DelayValues | src/bpsg/psg.c:1244-1255 | repeated addition gives ni values, value k being the first plus k increments |
| ArrayDims.Setup4D | src/bpsg/psg.c:1094-1413 | builds SetupText and counts the dimensions the array names itself |
| ArrayDims.SetupParses | src/bpsg/psg.c:1189-1411 | that string parses to d4, d3 and d2, each where its count is above 1.5 and no name of the array ends in it, and then the loops of the array |
| ArrayLoops.Arrays.ArrayPS | src/bpsg/arrayfuncs.c:509-620 | the recursion emits one FID per combination, in order, numbered on from ix, and counts nth2D with the outermost loop |
| ArrayLoops.ElemIndex | src/bpsg/arrayfuncs.c:843-876 | the loop from the last element down computes the digit; -1 for an element out of range |
| ArrayLoops.FidsHaveElemIndex | src/bpsg/arrayfuncs.c:509-620 | there are as many FIDs as the product of the sizes, and in FID f every loop is on the value elemindex gives |
| ArrayLoops.RowsAreNumbered | src/bpsg/arrayfuncs.c:509-620 | the values of FID f + 1 are between 1 and the sizes, and are the digits that make up f, the outermost loop first |
| ArrayLoops.TwoByTwo | src/bpsg/arrayfuncs.c:509-620 | two loops of two values, in full |
| FileLock.TwoLinksIsLocked | src/expproc/statfuncs.c:951-956 | an id file has link count 2 if and only if the lock path names the same file |
| FileLock.WaiterReads | src/expproc/statfuncs.c:978-991 | a waiter remembers the owner and the expiry in the lock file, or 0 when it cannot read it |
| FileLock.WaiterDecides | src/expproc/statfuncs.c:993-1033 | with an expiry it tries again until that has passed and then breaks the lock; without it gives up with the sixtieth try |
| FileLock.RunsKeep | src/expproc/statfuncs.c:905-1038 | every step of every process keeps the invariant, misreported links and crashes included, and the breaking of locks that nobody holds |
| FileLock.MutualExclusion | src/expproc/statfuncs.c:905-1038 | for any number of processes and any interleaving in which no waiter breaks a lock that somebody holds, at most one holds the lock, and the lock file is its own |
| FileLock.UnexpiredIsUnbroken | src/expproc/statfuncs.c:993-1017 | runs in which no remembered expiry passes are among them |
| FileLock.ExpiredLockTaken | src/expproc/statfuncs.c:993-1017 | the expired lock of a process that is gone is taken in four steps, and the invariant kept |
| FileLock.HeldHasTwoLinks | src/expproc/statfuncs.c:970-990 | while a process holds the lock its id file, and no other, has link count 2 |
| FileLock.StaleExpiryBreaks | src/expproc/statfuncs.c:993-1017 | once a remembered expiry has passed, the same four steps make a second holder of a lock that is held |
| FileLock.StaleExpiryReached | src/expproc/statfuncs.c:993-1017 | a run of three processes gets there with 89 seconds left on the lock that is broken |
| AcquisitionRequests.StepKeeps | src/bexpproc/msgehandler.c:944-1159 | every request, stopInteract among them, and every step of B12proc keeps the agreement between files, flags and the first accepted request |
| AcquisitionRequests.RequestDoes | src/bexpproc/msgehandler.c:944-1159 | which request is taken, from whom and when, and what it does to the files |
| AcquisitionRequests.RequestsComeAnyTime | src/bexpproc/msgehandler.c:944-1159 | no request waits for B12proc |
| AcquisitionRequests.RunnerDoes | src/b12proc/b12funcs.c:412-432 | what B12proc posts for each of the two files being there or not |
| AcquisitionRequests.OutcomeIsFirstRequest | src/b12proc/b12funcs.c:412-432 | when B12proc finds the Code file gone it posts one record: complete if an old Code_halt was there or the first accepted request was to halt, else aborted; so it is what that request asked for if and only if no old file was there or the request was to halt |
| AcquisitionRequests.OnlyRequestsEnd | src/b12proc/b12proc.c:378-420 | without an accepted request the Code file is never seen to be gone |
| AcquisitionRequests.LaterRequestsChangeNothing | src/bexpproc/msgehandler.c:1047-1062 | after the first accepted request none moves the files again |
| AcquisitionRequests.HaltFileLeft | src/bexpproc/msgehandler.c:1058-1062 | over every run: when the experiment has been reported, Code_halt is there if and only if B12proc did not see the Code file gone, and it was there before or the first accepted request was to halt |
| AcquisitionRequests.LateHaltLeavesFile | src/bexpproc/msgehandler.c:1058-1062 | such a run: a halt after B12proc's last look |
| AcquisitionRequests.StaleHaltMisreports | src/b12proc/b12funcs.c:412-427 | with that file there an abort is reported complete |
| AcquisitionRecords.Session.AbortExp | src/b12proc/b12funcs.c:412-431 | with Code_halt there the record is complete, without it aborted, and the file is removed |
| AcquisitionRecords.SameCode | src/b12proc/b12funcs.c:412-431 | that is the code that AcquisitionRequests posts for the same file |
| AcquisitionRecords.Session.WaitForScan | src/b12proc/b12proc.c:384-409 | one look for every full second of a scan, and at least one |
| AcquisitionRecords.Session.GetData | src/b12proc/b12proc.c:378-433 | fails with one record that says why, or posts nothing and has looked as often as scans and the board's running time make it |
| AcquisitionRecords.Session.DoneElem | src/b12proc/b12funcs.c:361-386 | the last element posts the record that ends the experiment, the others theirs |
| AcquisitionRecords.Session.TuneLoop | src/b12proc/b12proc.c:893-1013 | tuning posts its data once for every round but the last, until one record ends it: the abort record once the Code file is gone, otherwise a hardware error because the data failed |
| AcquisitionRecords.Session.RunExperiment | src/b12proc/b12proc.c:528-1066 | however the run goes, its records are the elements saved in order, or tuning data, then one record, and the message that it is done. The record is complete or aborted by Code_halt once the Code file is gone; else it says that the board or the data failed, or that all is saved; an MPSTUNE whose data never comes in a hundred looks ends as if the Code file were gone |
| AcquisitionRecords.OneEndOneMessage | src/b12proc/b12funcs.c:314-432 | such a run has exactly one terminal record and then exactly one expdone |
| ConsoleAccess.HostsNotTold | src/bexpproc/msgehandler.c:247-280 | two records compare as the same if and only if user and process are and the hosts are alike: any two names that fit, or longer ones with one beginning |
| ConsoleAccess.HostKept | src/bexpproc/msgehandler.c:260-280 | in place of a host name that fits the user name is kept, of a longer one the first 63 characters |
| ConsoleAccess.TableIsSound | src/bexpproc/msgehandler.c:1775-1903 | over every run of reserving, releasing, starting, checking, looking and finishing with recognised levels: no level twice, level none just when the count is 0, no record without a level, and a slot for every absent level |
| ConsoleAccess.AnyAccessWhen | src/bexpproc/msgehandler.c:1979-1989 | there is interactive access if and only if a live process has a level; if not, the table is empty afterwards, and so is the mark of who is acquiring if that process is gone |
| ConsoleAccess.RecordStays | src/bexpproc/msgehandler.c:1805-1973 | one request leaves a record alone unless its owner gives it up, its experiment ends or its process is gone |
| ConsoleAccess.NoTakeover | src/bexpproc/msgehandler.c:1929-2234 | over any run in which that does not happen, no other user is granted the level |
| ConsoleAccess.GrantedWhen | src/bexpproc/msgehandler.c:1929-1973 | a level that somebody has is granted if and only if the user may have the console and the holder is gone or is the same user |
| ConsoleAccess.ReserveDoes | src/bexpproc/msgehandler.c:2091-2234 | reserving a level that somebody has: refused to any user but that of the experiment under way, counted for the same process, granted unrecorded to another of its user and host, refused to others; a record whose process is gone makes way |
| ConsoleAccess.ReserveFirst | src/bexpproc/msgehandler.c:2091-2234 | reserving a level that nobody has: granted, and recorded unless somebody is acquiring |
| ConsoleAccess.ReleaseDoes | src/bexpproc/msgehandler.c:2236-2295 | a release is refused only where another record has the level; it takes the record, and the level with the last count |
| ConsoleAccess.ReleaseAllDoes | src/bexpproc/msgehandler.c:2236-2295 | releasing no level takes every record of the process |
| ConsoleAccess.StartDoes | src/bexpproc/msgehandler.c:2711-2880 | interactive acquisition is granted only while no experiment is under way, and to whom acquisition would be |
| ConsoleAccess.FinishDoes | src/bexpproc/msgehandler.c:1805-1842 | the end of an experiment takes one count of acquisition and its record |
| ConsoleAccess.NoGivingUp | src/bexpproc/msgehandler.c:1805-1973 | what others do, while the process is there, is never its giving up |
| ConsoleAccess.GrantRecorded | src/bexpproc/msgehandler.c:1849-1903 | a grant is recorded unless another live process of that user has the level |
| ConsoleAccess.ReservesCount | src/bexpproc/msgehandler.c:1858-1886 | k reservations of a level by one process add k to its count |
| ConsoleAccess.SecondReleaseRefused | src/bexpproc/msgehandler.c:1819-1842 | after k reservations on top of n, any number of releases frees the level, and the next is accepted, if and only if n + k is 1; otherwise the level stays taken with nobody's record |
| ConsoleAccess.UnrecognisedStored | src/bexpproc/msgehandler.c:2146-2217 | reserving an unrecognised level spoils the table if and only if the user may have the console and a slot is free |
| ConsoleAccess.UnrecognisedFills | src/bexpproc/msgehandler.c:1888-1899 | acquisition that nobody has is granted, and recorded if and only if a slot is free |
| ConsoleAccess.ReserveNothing | src/bexpproc/msgehandler.c:2161-2172 | reserving no level frees a requester only if its first record is in the second slot |
| AccessTable.Accesses.StoreRecord | src/bexpproc/msgehandler.c:1849-1903 | the array is updated as Store says; 0 just when the record is there afterwards |
| AccessTable.Accesses.VerifyAccess | src/bexpproc/msgehandler.c:1929-1973 | grants as Verify says and erases the record of a process that is gone |
| AccessTable.Accesses.IsThereInteractiveAccess | src/bexpproc/msgehandler.c:1979-1989 | table and answer are those of AnyAccess |
| AccessTable.Accesses.ReserveConsole | src/bexpproc/msgehandler.c:2091-2234 | the table and the answer are those of Reserve |
| AccessTable.Accesses.ReleaseConsole | src/bexpproc/msgehandler.c:2236-2295 | the table and the answer are those of Release |
| AccessTable.Accesses.StartInteractive | src/bexpproc/msgehandler.c:2711-2880 | the table, the process id and the answer are those of StartInteract |
| StatusPorts.LoggedKeeps | src/infoproc/infoqueu.c:107-159 | registration keeps keys distinct and in order, and adds a key only if it is new |
| StatusPorts.RemovedKeeps | src/infoproc/infoqueu.c:319-354 | removal keeps keys distinct and leaves none equal to the one removed |
| StatusPorts.RemovedOnly | src/infoproc/infoqueu.c:319-354 | every other entry stays, in its order |
| StatusPorts.SentIsKept | src/infoproc/infoqueu.c:360-401 | a sweep sends once, in order, to exactly the entries it keeps |
| StatusPorts.SweepFirst | src/infoproc/infoqueu.c:360-401 | an entry of at most 600 seconds is sent to in its place; an older one is dropped and the next sent to whatever its age |
| StatusPorts.SweepKeepsDistinct | src/infoproc/infoqueu.c:360-401 | the keys kept stay distinct, so nobody is sent to twice |
| StatusPorts.FreshKept | src/infoproc/infoqueu.c:360-401 | every entry that has not expired is kept |
| StatusPorts.SweepIsFresh | src/infoproc/infoqueu.c:360-401 | the sweep keeps only those if and only if no two expired entries are neighbours |
| StatusRegistry.Registry.LogStatusPort | src/infoproc/infoqueu.c:107-159 | on the heap: the list stays linked and acyclic; a known key gets the new time and nothing else, a new one comes last |
| StatusRegistry.Registry.RmStatusPort | src/infoproc/infoqueu.c:319-354 | the list stays linked, the entry at the position returned is taken out, and 0 is returned when no entry has the key |
| StatusRegistry.Registry.SendAcqStat | src/infoproc/infoqueu.c:360-401 | the list and the ports sent to are those of Sweep: every entry of at most 600 seconds is kept, those kept are sent to in order, and keys stay distinct for the next sweep |
| RfPower.Monitor.UpdateRfInfo | src/infoproc/infoqueu.c:545-599 | for every ten seconds passed each channel takes its sample, and its running sum stays within 15 of a thirtieth of the last thirty |
| RfPower.PowerIs | src/infoproc/infoqueu.c:565-579 | the sample that a monitor word stands for, at the ends and the middle of the knob |
| RfPower.WindowIs | src/infoproc/infoqueu.c:583-598 | the last thirty samples, zeros before there were so many |
| RfPower.SampleFits | src/infoproc/infoqueu.c:588-598 | unsigned 32-bit subtraction and addition give the exact new sum |
| RfPower.LongPowerAccuracy | src/infoproc/infoqueu.c:588-598 | for every history the sum is within 15 of a thirtieth of the raw samples' and fits its word |
| MpsReply.MpsPort.RecvTuneMPS | src/bexpproc/mps.c:369-433 | the nested read loops do what FeedAll says |
| MpsReply.AnyChunks | src/bexpproc/mps.c:383-431 | a reply whose only newline is its last byte is read the same however it is split |
| MpsReply.FieldsWritten | src/bexpproc/mps.c:383-431 | what is written are its fields, stripped to digits, in order; nothing if there is one field |
| MpsReply.OnlyDigitsStay | src/bexpproc/mps.c:396-410 | of a field, the characters that are no digits go, and nothing else |
| MpsReply.ReplyReadBack | src/bexpproc/mps.c:383-431 | digit fields are written as they were sent if and only if there are two or more |

## Left out

- Real numbers stand for doubles, and printing a number in the text is exact; rounding of `%g` is not modelled.
- The board: its LOOP and END_LOOP semantics, the acquisition time `pb_setup_filters` yields and the values of phase registers are assumptions; all `pb_*` calls beyond the instruction list are outside.
- `pre_fidsequence`, the MTUNE and MPSTUNE texts, the adjustment of sw by `calc_sw` and the OFFSET line, which B12proc ignores; the receiver phase is kept as an index and not as the three channels it selects.
- The generator's file output is a sequence of lines; the swap of the global file handle is the flag that tells the dry pass.
- Time simulator: rotor synchronisation, KZLOOP, the Gemini GLOOP, per-node overheads, the acquisition time added when no ACQUIRE is seen, and 32-bit overflow of real-time variables.
- DpsExact.TimeIsUnrolled: asks that no time depends on what earlier passes leave, a sufficient check on the text of the block; DpsCollapse.TimeIsOff says by how much it is off, and so has both directions.
- DpsCollapse.TimeIsOff: loops that are run again for INCDLY, and parallel sections, must pass that check; of collapsed loops only what the first pass reads must.
- DpsWaits.WaitsExactlyWhen: scans of timed nodes, with delays that are not negative and are waited; EstimateIsOff has neither limit.
- DpsEvolution.EstimateIsOff: the time of one combination is a function of the arrayed parameters alone; what a scan leaves in the real-time variables for the next combination is not carried over.
- DpsRun.BlockGoes: blocks nest no deeper than the sixteen levels, and no parallel section stands inside another; beyond that set_dps_loop enters no level, and only that the run stops is stated.
- DpsTimer.LeafTime: the time of one scan is a parameter; it is that of timers and loopRcnt after the simulation.
- Sparse sampling in `setup4D`, and parameters that the array names but that do not exist, at which psg aborts.
- ArrayDims.FindWord: for keys no occurrence of which can begin inside another, as d2, d3 and d4 are.
- Buffer lengths: names in an array, lines of a tuning reply, user names longer than their fields.
- FileLock.MutualExclusion: liveness and the length of the waits are not stated, and opening and reading the lock file is one step.
- FileLock.RunsKeep: a crash between creating the id file and writing it is not modelled; the code then reads a path and a time that were never set.
- AcquisitionRequests.OutcomeIsFirstRequest: one experiment at a time; the experiment queue, the restart of the next one by `chkExpQ` and the stopping of several acquisitions at once are not modelled.
- AcquisitionRecords.Session.RunExperiment: shared memory, message queues and the data file are the list of records; the contents of the FIDs are not modelled.
- Display strings, replies to clients and status-block fields of the console handlers.
- StatusRegistry.Registry.SendAcqStat: the datagram itself, and a failing send, which the code ignores.
- RfPower.Monitor.UpdateRfInfo: time stamps are microseconds, and the display fields other than the running sums are not kept.
- MpsReply.MpsPort.RecvTuneMPS: waiting for bytes that never come; and the source reads each byte into an int whose other bytes it never sets, where the model has the byte.
- The USB plumbing, configuration files, serial ports, process control, billing, drawing output and the remaining status getters: one-branch code with nothing to add to the above.
