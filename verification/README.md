# Verified model of the Adreno ringbuffers, firmware loading, crash dump and touch detection

This project models, in Dafny, the parts of the graphics kernel driver that drive
Adreno GPUs of the 3xx and 5xx families, and the finger detection of the
fingerprint driver, and proves what they keep, decode and agree on. Check it with
`dafny verify dfyconfig.toml`.

## What is modelled

**Preemption (a5xx).** `PreemptModel` is a transition system: the driver, the
command processor and the rings with their preemption records. One step is one
critical section of the driver (a section under `preempt_lock`, or one move of the
state word with the register accesses beside it) or one hardware action: execute
published words, load a page table, finish a switch. `PreemptSafety` has the
invariant and what follows from it in every interleaving, `PreemptHandlers` the
handlers as runs of steps, `PreemptProgress` infinite fair runs, `PreemptRecovery`
switches that the hardware never ends, and `PreemptDevice` the handlers as methods
that update a device, each proved to have the effect of its steps. One claim is
false at the grain of critical sections: a submission to the current ring while
the state word is START, after the catch-up, is not announced until the next
trigger. `StrandingRun` is such a run and `StrandedExactlyIfLate` says exactly
when. `PreemptGrain` splits the trigger's last step in two, setting TRIGGERED and
writing CONTEXT_SWITCH_CNTL. In between the register still reads 0, and an
interrupt left over from a switch that the timer claimed can take that for the end
of the new switch; `HastyLookWrongExactly` says when a doorbell then goes wrong,
and `UnhurriedDoorbells` that none does otherwise. `PreemptDoorbell` splits
besides a submission in two, its look at the state word and its register write, so
that its theorems cover both grains together. A trigger in interrupt context, at
the end of the completion interrupt or in `a5xx_cp_callback` whenever the
processor reports a timestamp, can start a switch in between;
`CanBeOvertakenExactly` says for which submissions.

**Command streams.** `Pm4` has the packet headers bit for bit and the reader that
cuts words into packets; `PacketParity` the fast parity. `Ringbuffer` has the
allocation of ring space with its wrap-around. `A5xxRingbuffer`, `A5xxStart` and
`A3xxRingbuffer` are the builders, which fill arrays in place; their
specifications are the packet lists of `A5xxPackets` and `A3xxPackets`, and of
`CommandLists` for what both share. `CommandProcessor` executes packets, and
`A5xxExecution` and `A3xxExecution` prove what the built streams make it do: every
buffer run, register set and word stored, in order and with its mode.
`StreamMarks` has the identifiers that NOPs carry. `A5xxSubmit` and `A3xxSubmit`
put it together for one ring: submissions are added, the processor reads on
(`RingReading`), and the write pointer goes around the ring; `DrawContexts` has
the page tables of contexts and `StreamSizes` the sizes of streams. Three results
are not what one would expect. `a5xx_ringbuffer_addcmds` ignores the return value
of `a5xx_ringbuffer_submit`, but the read-pointer report that could fail to fit
always does, in what is left over of the reservation. `a5xx_drawctxt_switch` and
`a3xx_drawctxt_switch` ignore the result of the context switch, so a list can run
under the page table of another context; `SubmitCmd` says exactly when, and
`WrongTableRun` has runs that do it, with lists no longer than the driver accepts.
On a3xx the power-on fixup turns protection off twice and never on, so the
processor stays unprotected until the end of the first submission, from that one
on, that is flagged not protected.

**Firmware.** `FirmwareBlocks` has the block headers and the walk over a register
file, `RegSequence` the bytecode it carries, and `RegisterProgram` goes from the
file to the registers, and `Gpmu` is the cutting of an image into register
packets. The register accessor takes 32 bits, so 64-bit registers and values of
the bytecode are cut; `MeantWhenNarrow` says when that matters. A sequence
recorded before a refused block stays recorded, though the file is released. A
GPMU file that starts with a block of bad length or foreign id, or whose image is
too large for instruction RAM, is passed over and reported as success; only a
refused header is an error. Both are modelled as the code has them.

**Crash dump.** `CrashScript` has the tables, the script and the dumper that runs
it, `CrashDump` the sizing pass and the emitting pass, `CrashLayout` where things
lie in the data buffer, `CrashReadback` what is read back from there, and
`CrashSnapshot` the decoding pass; `CrashCapture` goes from the tables to the
snapshot's sections. Shader banks above the first, and the GPMU list, are read
from the wrong place; the theorems give the exact condition under which they are
right, and `BankCopies` what is read instead: the last two banks of a block are in
no section.

**Touch.** `TouchModel` is the detector on values, `TouchDevice` the same on
arrays, `TouchSafety` what holds in every run of input events and work runs, and
`TouchFrames` what a frame of fingers with positions leads to. The line to the
sensor is high whenever a finger is down; the converse fails, and
`LineTellsDownExactly` says when, from the state before a work run. A slot code
beyond the slots is never left again: from then on all input is lost
(`BadSlotSticks`).

**Timing.** `Timing` has the bus timeout exponent, and counter accumulation, which
loses one tick at each wrap.

`Common` holds three shared definitions.

## Model

| member | source | states |
|---|---|---|
| `PreemptSafety.StepKeeps` | qcom/opensource/graphics-kernel/adreno_a5xx_preempt.c:18-317 | one invariant over driver, hardware and records is kept by every critical section of every handler, by every hardware action, and by a restart |
| `PreemptSafety.RunKeeps` | qcom/opensource/graphics-kernel/adreno_a5xx_preempt.c:18-317 | the invariant holds along every run of such steps, in any interleaving |
| `PreemptSafety.DoorbellSafety` | qcom/opensource/graphics-kernel/adreno_a5xx_preempt.c:168-300 | in every reachable state, every write of the WPTR register ever made landed while the hardware was executing the ring whose write pointer was written; at the grain of critical sections |
| `PreemptSafety.StrandedExactlyIfLate` | qcom/opensource/graphics-kernel/adreno_a5xx_preempt.c:183-203 | in state NONE the hardware executes `cur_rb`, and the WPTR register equals its write pointer if and only if no submission to it came after the last catch-up in a handler |
| `PreemptSafety.DoorbellSkippedExactly` | qcom/opensource/graphics-kernel/adreno_a5xx_ringbuffer.c:85-94 | a submission made while the register is caught up leaves it behind exactly if its ring is current and the state word is not NONE |
| `PreemptSafety.StrandingRun` | qcom/opensource/graphics-kernel/adreno_a5xx_preempt.c:183-203 | a concrete run in which a submission between the emptiness scan and the return to NONE stays unannounced |
| `PreemptSafety.SwitchesConserved` | qcom/opensource/graphics-kernel/adreno_a5xx_preempt.c:76-126 | triggers = swaps + one in flight = claims by interrupt + claims by timer + one still TRIGGERED; in flight, `next_rb` is set and is not `cur_rb` |
| `PreemptSafety.HardwareExecutesPublished` | qcom/opensource/graphics-kernel/adreno_a5xx_preempt.c:222-223 | the hardware never executes words past the published write pointer, and what it executes comes off the outstanding words exactly |
| `PreemptSafety.PageTableFollowsRing` | qcom/opensource/graphics-kernel/adreno_a5xx_preempt.c:205-231 | with per-process page tables each ring executes under its own table |
| `PreemptHandlers.ScanOutcome` | qcom/opensource/graphics-kernel/adreno_a5xx_preempt.c:147-253 | running a handler from the scan to its end gives, for every state, the result stated in closed form: settle, or switch to the first busy ring |
| `PreemptHandlers.TriggerPicksHighestPriority` | qcom/opensource/graphics-kernel/adreno_a5xx_preempt.c:168-253 | a trigger from NONE ends in NONE exactly if all rings are empty or the lowest-numbered busy ring is current; otherwise it hands over that ring, with its fresh write pointer and its page table |
| `PreemptHandlers.RunOwnerCatchesUp` | qcom/opensource/graphics-kernel/adreno_a5xx_preempt.c:76-203 | every handler that runs to its end leaves no submission late |
| `PreemptHandlers.NoStrandedSubmission` | qcom/opensource/graphics-kernel/adreno_a5xx_preempt.c:168-317 | with whole handlers as the unit of interleaving, in every state reached after power-up NONE means that the register equals `cur_rb->wptr`, whatever was submitted in mid-switch |
| `PreemptHandlers.EventsLeadToOne` | qcom/opensource/graphics-kernel/adreno_a5xx_preempt.c:168-317 | every list of events is followed from power-up by exactly one state |
| `PreemptProgress.OutstandingMoves` | qcom/opensource/graphics-kernel/adreno.h:1637-1640 | changing one ring changes the total of outstanding words by that ring's change |
| `PreemptProgress.QuietStepNearer` | qcom/opensource/graphics-kernel/adreno_a5xx_preempt.c:147-317 | every step without submission, timeout or fault lowers the lexicographic measure or leaves the same actor due, and a step of that actor lowers it |
| `PreemptProgress.DueIsEnabled` | qcom/opensource/graphics-kernel/adreno_a5xx_preempt.c:147-317 | while words are outstanding the actor that is due can take a step |
| `PreemptProgress.GetsNearer` | qcom/opensource/graphics-kernel/adreno_a5xx_preempt.c:147-317 | from any point of a fair run with work left, the measure gets strictly smaller later on |
| `PreemptProgress.EveryFairRunDrains` | qcom/opensource/graphics-kernel/adreno_a5xx_preempt.c:147-317 | every infinite fair run without submissions, timeouts and faults drains all rings, and they stay drained |
| `PreemptDevice.AdrenoDevice.MovePreemptState` | qcom/opensource/graphics-kernel/adreno.h:1766-1770 | compare-and-swap of the state word, with its answer |
| `PreemptDevice.AdrenoDevice.RingbufferSubmit` | qcom/opensource/graphics-kernel/adreno_a5xx_ringbuffer.c:85-94 | publishing words, also between the sections of a handler, moves the ring's write pointer on by them and sets the register to it exactly if the ring is current and the state NONE; the invariant holds |
| `PreemptDevice.AdrenoDevice.UpdateWptr` | qcom/opensource/graphics-kernel/adreno_a5xx_preempt.c:18-43 | the catch-up writes the register exactly when it differs from the current ring's write pointer |
| `PreemptDevice.AdrenoDevice.NextRingbuffer` | qcom/opensource/graphics-kernel/adreno_a5xx_preempt.c:147-166 | the loop finds the lowest-numbered busy ring, if any |
| `PreemptDevice.AdrenoDevice.RecordRing` | qcom/opensource/graphics-kernel/adreno_a5xx_preempt.c:205-224 | the record of the next ring gets its write pointer; its page table is read in the same section |
| `PreemptDevice.AdrenoDevice.ProgramSwitch` | qcom/opensource/graphics-kernel/adreno_a5xx_preempt.c:225-252 | page table, record address, `next_rb`, state and CNTL are set as the atomic program step says |
| `PreemptDevice.AdrenoDevice.TriggerFromStart` | qcom/opensource/graphics-kernel/adreno_a5xx_preempt.c:178-252 | past the compare-and-swap: the whole new state is the closed-form scan result |
| `PreemptDevice.AdrenoDevice.PreemptionTrigger` | qcom/opensource/graphics-kernel/adreno_a5xx_preempt.c:168-253 | the trigger's whole new state is that of the run of its critical sections, and the invariant holds |
| `PreemptDevice.AdrenoDevice.FinishSwitch` | qcom/opensource/graphics-kernel/adreno_a5xx_preempt.c:76-93 | swap of `cur_rb` and `next_rb`, catch-up and return to NONE |
| `PreemptDevice.AdrenoDevice.ClaimCompletion` | qcom/opensource/graphics-kernel/adreno_a5xx_preempt.c:255-266 | the interrupt claims the switch exactly from TRIGGERED |
| `PreemptDevice.AdrenoDevice.PreemptCallback` | qcom/opensource/graphics-kernel/adreno_a5xx_preempt.c:255-300 | the interrupt handler's whole new state, including the trigger at its end: not TRIGGERED, only the interrupt is taken; still switching, the state is COMPLETE and the dispatcher is scheduled; otherwise the next ring becomes current |
| `PreemptDevice.AdrenoDevice.PreemptionDone` | qcom/opensource/graphics-kernel/adreno_a5xx_preempt.c:45-94 | a COMPLETE switch is swapped in with its write pointer; a fault is raised exactly if the GPU is awake and still switching, and then, and asleep, the state stays |
| `PreemptDevice.AdrenoDevice.PreemptionSchedule` | qcom/opensource/graphics-kernel/adreno_a5xx_preempt.c:302-317 | the dispatcher's clean-up followed by a trigger; nothing when preemption is off |
| `PreemptDevice.AdrenoDevice.PreemptionTimer` | qcom/opensource/graphics-kernel/adreno_ringbuffer.c:158-171 | the timer takes TRIGGERED to FAULTED and schedules the worker exactly then |
| `PreemptDevice.AdrenoDevice.PreemptionWorker` | qcom/opensource/graphics-kernel/adreno_a5xx_preempt.c:96-144 | a FAULTED switch raises the fault and stays FAULTED exactly if the GPU is asleep or still switching; otherwise it becomes COMPLETE, the fault stays as it is and the dispatcher is scheduled; any other state is left alone |
| `PreemptDevice.AdrenoDevice.PreemptionStart` | qcom/opensource/graphics-kernel/adreno_a5xx_preempt.c:412-461 | every ring gets a clear record and the default page table, the state word NONE; nothing without preemption |
| `PreemptDevice.AdrenoDevice.RbStart` | qcom/opensource/graphics-kernel/adreno_a5xx.c:1818-1828 | every ring gets clear read and write pointers, and nothing else of it changes |
| `PreemptDevice.AdrenoDevice.MakeHungCurrent` | qcom/opensource/graphics-kernel/adreno_dispatch.c:2049-2053 | the ring the hardware hung on becomes current, the one before it previous |
| `PreemptDevice.AdrenoDevice.Recover` | qcom/opensource/graphics-kernel/adreno_dispatch.c:2040-2132 | the whole state is that of power-up but for the current ring, which is the hung one, the previous ring, `next_rb` and the doorbells rung |
| `PreemptDevice.AdrenoDevice.DoFault` | qcom/opensource/graphics-kernel/adreno_dispatch.c:1951-2132 | the fault is taken in any case; with the power off or the SMMU stalled nothing else changes, otherwise everything starts over; the invariant holds |
| `PreemptRecovery.FaultRaisedExactly` | qcom/opensource/graphics-kernel/adreno_a5xx_preempt.c:45-144 | exactly which steps raise the fault: one reported from elsewhere, the worker of a timed-out switch that has not ended or with the power off, the clean-up of a switch that has not ended |
| `PreemptRecovery.FaultTakenExactly` | qcom/opensource/graphics-kernel/adreno_dispatch.c:1965-2132 | exactly which steps take it: recovery, once no handler is under way |
| `PreemptRecovery.HungStays` | qcom/opensource/graphics-kernel/adreno_a5xx_preempt.c:96-317 | while the hardware does not end a switch, no step but recovery does: the rings stay, a raised fault stays raised |
| `PreemptRecovery.TimedOutIsReported` | qcom/opensource/graphics-kernel/adreno_a5xx_preempt.c:96-144 | a switch the hardware never ends, claimed by the timer and looked at by the worker, whatever else happens between and after, raises the fault, and recovery then returns to NONE |
| `PreemptRecovery.StuckCleanUpIsReported` | qcom/opensource/graphics-kernel/adreno_a5xx_preempt.c:45-70 | the same of a switch whose interrupt came while the register was still set, through the clean-up |
| `PreemptRecovery.RecoveryReturns` | qcom/opensource/graphics-kernel/adreno_dispatch.c:2040-2132 | recovery from a hung switch leaves its ring current, no switch going on and nothing outstanding |
| `PreemptRecovery.EveryHungSwitchIsReported` | qcom/opensource/graphics-kernel/adreno_a5xx_preempt.c:96-317 | from every reachable state with a switch the hardware never ends, every infinite run in which the timer, the handlers, the worker and the dispatcher keep coming raises the fault, and recovery from there returns to NONE |
| `PreemptGrain.FineStepKeeps` | qcom/opensource/graphics-kernel/adreno_a5xx_preempt.c:246-252 | with setting TRIGGERED and writing CONTEXT_SWITCH_CNTL as two steps, every step between them that does not take the register's old 0 for the end of the switch keeps the invariant that holds as if the switch were started |
| `PreemptGrain.UnhurriedDoorbells` | qcom/opensource/graphics-kernel/adreno_a5xx_preempt.c:246-300 | at that grain, in every run without such a hasty step every write of the WPTR register hit the ring it was meant for |
| `PreemptGrain.HastyLookWrongExactly` | qcom/opensource/graphics-kernel/adreno_a5xx_preempt.c:52-86 | the first hasty look, its handler running on undisturbed, leads to a write for the wrong ring if and only if the register differs from the next ring's write pointer |
| `PreemptGrain.HastyLookNeedsTimer` | qcom/opensource/graphics-kernel/adreno_a5xx_preempt.c:255-266 | a hasty look needs a switch that the timer has claimed since the last restart |
| `PreemptGrain.StaleInterruptRun` | qcom/opensource/graphics-kernel/adreno_a5xx_preempt.c:246-300 | a concrete run in which the interrupt of a switch that the timer claimed claims the next one before it is started, and the catch-up rings for the wrong ring |
| `PreemptGrain.TwoStepsAreOne` | qcom/opensource/graphics-kernel/adreno_a5xx_preempt.c:246-252 | with nobody in between, the two steps are the one step of the coarser model |
| `PreemptDoorbell.SplitStepKeeps` | qcom/opensource/graphics-kernel/adreno_a5xx_ringbuffer.c:85-94 | with both pairs split, the trigger's TRIGGERED and CONTEXT_SWITCH_CNTL and a submission's look at the state word and register write, and whoever needs the ring's lock or the device mutex waiting in between, every step keeps the invariant, except a hasty look and the write of a submission that was overtaken by a hardware switch |
| `PreemptDoorbell.DoorbellsExactly` | qcom/opensource/graphics-kernel/adreno_a5xx_ringbuffer.c:85-94 | with both pairs split: as long as nobody has looked hastily and no overtaken submission has written, every write of the WPTR register hit the ring it was meant for, and the next submission's write does if and only if it was not overtaken |
| `PreemptDoorbell.CanBeOvertakenExactly` | qcom/opensource/graphics-kernel/adreno_a5xx_ringbuffer.c:85-94 | when a submission looks at the state word: some interleaving of the split steps, without a hasty look, lets the hardware switch before it writes, if and only if the state is NONE, its ring is current, and a ring of higher priority has words |
| `PreemptDoorbell.OvertakenRun` | qcom/opensource/graphics-kernel/adreno_a5xx_ringbuffer.c:85-94 | a concrete run from power-up in which a submission is overtaken and rings for the wrong ring |
| `PreemptDoorbell.LookThenWrite` | qcom/opensource/graphics-kernel/adreno_a5xx_ringbuffer.c:85-94 | with nobody in between, the two steps are the one step of the coarser models |
| `Pm4.Header0Reads` | qcom/opensource/graphics-kernel/adreno_pm4types.h:205-208 | register and count are read back from a type 0 header, and lie at their places in the word |
| `Pm4.Header3Reads` | qcom/opensource/graphics-kernel/adreno_pm4types.h:210-213 | opcode and count are read back from a type 3 header, and lie at their places in the word |
| `Pm4.Header4Reads` | qcom/opensource/graphics-kernel/adreno_pm4types.h:215-221 | register and count are read back from a type 4 header, and both parity bits check |
| `Pm4.Header7Reads` | qcom/opensource/graphics-kernel/adreno_pm4types.h:223-230 | opcode and count are read back from a type 7 header, and both parity bits check |
| `Pm4.Header4Fields` | qcom/opensource/graphics-kernel/adreno_pm4types.h:215-221 | register, count and both parity bits lie at their places in a type 4 header |
| `Pm4.Header7Fields` | qcom/opensource/graphics-kernel/adreno_pm4types.h:223-230 | opcode, count and both parity bits lie at their places in a type 7 header |
| `Pm4.DecodeEncode` | qcom/opensource/graphics-kernel/adreno_pm4types.h:205-275 | reading a printed packet stream gives back exactly its packets, for every stream |
| `Pm4.DecodeAppend` | qcom/opensource/graphics-kernel/adreno_pm4types.h:205-275 | a printed stream reads as its packets whatever comes after it |
| `PacketParity.XorOnes` | qcom/opensource/graphics-kernel/adreno_pm4types.h:192-198 | the exclusive or of two values has an odd number of ones exactly if one of them has |
| `PacketParity.FoldOnes` | qcom/opensource/graphics-kernel/adreno_pm4types.h:192-198 | folding the nibbles of a value together keeps the parity of its ones |
| `PacketParity.FastParityRight` | qcom/opensource/graphics-kernel/adreno_pm4types.h:192-198 | the table lookup on the folded nibbles is, for every 32-bit value, the bit that makes the number of ones odd |
| `Ringbuffer.AdrenoRingbuffer.AllocSpace` | qcom/opensource/graphics-kernel/adreno_ringbuffer.c:68-105 | a reservation is contiguous, keeps off the unread words and leaves a filler NOP over the end of the ring when it wraps; a failed one changes nothing |
| `Ringbuffer.PublishedRead` | qcom/opensource/graphics-kernel/adreno_ringbuffer.c:68-105 | what is written into a reservation reads, from the old write pointer on, as those packets behind at most the filler |
| `Ringbuffer.UnreadUntouched` | qcom/opensource/graphics-kernel/adreno_ringbuffer.c:68-105 | neither the filler nor the words written touch what the processor has still to read |
| `Ringbuffer.LeftOverFits` | qcom/opensource/graphics-kernel/adreno_ringbuffer.c:68-105 | what is left over of a reservation has room for as many words again, wherever the processor has read to since |
| `Ringbuffer.Appended` | qcom/opensource/graphics-kernel/adreno_ringbuffer.c:68-105 | after a reservation is filled and rolled back, the unread words are followed by words that read as what was written, behind at most the filler |
| `Ringbuffer.HoldsMore` | qcom/opensource/graphics-kernel/adreno_a5xx_ringbuffer.c:138-287 | a command array that holds a stream holds the longer stream after the next packets are written behind it, and nothing else in it changes |
| `A5xxRingbuffer.PreemptionPreIbSubmit` | qcom/opensource/graphics-kernel/adreno_a5xx_preempt.c:319-392 | fourteen words with preemption, none without: exactly the record address, protection and yield packets |
| `A5xxRingbuffer.PreemptionPostIbSubmit` | qcom/opensource/graphics-kernel/adreno_a5xx_preempt.c:394-410 | five words with preemption, none without: the yield |
| `A5xxRingbuffer.PutPrologue` | qcom/opensource/graphics-kernel/adreno_a5xx_ringbuffer.c:164-205 | the packets before the commands, at most 32 words, for every combination of flags |
| `A5xxRingbuffer.PutRetirement` | qcom/opensource/graphics-kernel/adreno_a5xx_ringbuffer.c:210-267 | protection back on, profiling, the unique write and the timestamps, at most 21 words |
| `A5xxRingbuffer.PutClosing` | qcom/opensource/graphics-kernel/adreno_a5xx_ringbuffer.c:269-278 | idle, secure mode off and the yield, at most 8 words |
| `A5xxRingbuffer.FillSubmission` | qcom/opensource/graphics-kernel/adreno_a5xx_ringbuffer.c:161-281 | the words written are the whole submission, three words at least of 64+n are left over, and the rollback leaves the write pointer exactly behind the last |
| `A5xxRingbuffer.RingbufferSubmit` | qcom/opensource/graphics-kernel/adreno_a5xx_ringbuffer.c:62-97 | publishes what is pending; with sync behind a read-pointer report, and nothing exactly if there is no room for that |
| `A5xxRingbuffer.WriteSubmission` | qcom/opensource/graphics-kernel/adreno_a5xx_ringbuffer.c:156-281 | a submission fits exactly if there is room; then it reads as its packets behind the words still unread, and a report of three words has room behind it; one that does not fit changes nothing |
| `A5xxRingbuffer.AddCmds` | qcom/opensource/graphics-kernel/adreno_a5xx_ringbuffer.c:138-287 | exactly which error comes back when, and that it changes nothing unread; on success everything is published, and the words to be read are those before, the submission, and without preemption the read-pointer report, which always fits |
| `A5xxRingbuffer.PutUserProfilingIb` | qcom/opensource/graphics-kernel/adreno_a5xx_ringbuffer.c:309-333 | the words that store the counter go to the ring's next profiling slot and nowhere else, the call of that slot to the command array, and the slot index moves on |
| `A5xxRingbuffer.PutEntry` | qcom/opensource/graphics-kernel/adreno_a5xx_ringbuffer.c:452-469 | an entry is at most five words: the call, or the same words behind a NOP that swallows exactly them |
| `A5xxRingbuffer.PutEntries` | qcom/opensource/graphics-kernel/adreno_a5xx_ringbuffer.c:452-469 | the loop over the list writes the entries in order, at most five words each |
| `A5xxRingbuffer.BuildCommand` | qcom/opensource/graphics-kernel/adreno_a5xx_ringbuffer.c:414-483 | the command buffer of 32+5n words is never overrun and holds exactly the command packets, with the profile's addresses; with user profiling two successive slots hold the words for the times of submission and retirement, and no other word of the page changes |
| `A5xxRingbuffer.PutPagetableSwitch` | qcom/opensource/graphics-kernel/adreno_a5xx_ringbuffer.c:14-50 | the eighteen words of a page table switch |
| `A5xxRingbuffer.BuildContextSwitch` | qcom/opensource/graphics-kernel/adreno_a5xx_ringbuffer.c:335-368 | a context switch fits its local array of 32 words, with or without a new page table |
| `A5xxExecution.MaskLosesNothing` | qcom/opensource/graphics-kernel/adreno_a5xx_ringbuffer.c:466-467 | the 20-bit size mask keeps the size exactly if the size passes the check's bound |
| `A5xxExecution.EntriesRun` | qcom/opensource/graphics-kernel/adreno_a5xx_ringbuffer.c:452-469 | executing the entries of a verified list runs its buffers that are not skipped, in order, each whole, and does nothing else |
| `A5xxExecution.CommandsRun` | qcom/opensource/graphics-kernel/adreno_a5xx_ringbuffer.c:425-483 | executing a command buffer does this and nothing else, in order: the kernel counter is stored, the user's call run, the unskipped buffers run whole, render mode and yield set, the kernel counter stored, the user's call run |
| `A5xxExecution.ContextSwitchExecutes` | qcom/opensource/graphics-kernel/adreno_a5xx_ringbuffer.c:335-371 | a context switch loads its page table, if any, stores table and id in the ring's slot between waits, stores the id as the ring's and the device's current context, invalidates the cache, and does nothing else |
| `A5xxExecution.SubmissionBrackets` | qcom/opensource/graphics-kernel/adreno_a5xx_ringbuffer.c:164-278 | a submission that starts protected and not secure ends so; before its commands preemption is set up, a profiling call run and the start timestamps stored, context's and ring's; its commands run in the mode of its flags; after all of them come the other profiling call, the unique write and the end timestamps, still secure if flagged, and the yield |
| `A5xxExecution.SentExecutes` | qcom/opensource/graphics-kernel/adreno_a5xx_ringbuffer.c:335-530 | all that one draw or context switch makes the processor run, set and store, in order, each with its mode, and the page table after it |
| `A5xxExecution.ExecuteThrough` | qcom/opensource/graphics-kernel/adreno_a5xx_ringbuffer.c:62-97 | ring words that read as some packets behind a filler have exactly the effect of those packets |
| `A5xxExecution.EveryRunBrackets` | qcom/opensource/graphics-kernel/adreno_a5xx_ringbuffer.c:138-530 | words that are one submission as published after another read as whole packets; the processor does exactly what they ask for in order, submission after submission, with the read-pointer report behind each without preemption, ends protected and not secure, and has the page table loaded last |
| `A5xxSubmit.RingQueue.RingExecutes` | qcom/opensource/graphics-kernel/adreno_a5xx_ringbuffer.c:138-530 | on one ring that submissions are added to and read from in any order, around its end as often as need be: all that is ever read, and what is still to be read, is whole packets and does exactly what was asked |
| `A5xxSubmit.RingQueue.Read` | qcom/opensource/graphics-kernel/adreno_a5xx_ringbuffer.c:81-96 | the processor reads on by the words asked for or up to the write pointer, and that stays so |
| `A5xxSubmit.RingQueue.Add` | qcom/opensource/graphics-kernel/adreno_a5xx_ringbuffer.c:138-287 | adding a submission keeps that, and adds it to what was asked exactly if it succeeds; where the write pointer is then, also around the end of the ring |
| `A5xxSubmit.RingQueue.SwitchContext` | qcom/opensource/graphics-kernel/adreno_a5xx_ringbuffer.c:335-371 | after a context switch, whose result nobody looks at, the page table is the new context's exactly if a switch of tables is due and got room and no fault, and otherwise stays; where the pointers are then |
| `A5xxSubmit.RingQueue.DrawctxtSwitch` | qcom/opensource/graphics-kernel/adreno_a5xx_ringbuffer.c:373-398 | the context becomes active whatever the switch returned, with the exact condition for its page table; only a detached one is refused, and then nothing changes |
| `A5xxSubmit.RingQueue.AddSwitch` | qcom/opensource/graphics-kernel/adreno_a5xx_ringbuffer.c:335-371 | a context switch goes out exactly if there is room for it and no fault, and then loads its page table, if any; where the pointers are then |
| `A5xxSubmit.RingQueue.AddDraw` | qcom/opensource/graphics-kernel/adreno_a5xx_ringbuffer.c:521-522 | the commands leave the page table alone; which error comes back exactly when, and where the pointers are then, also around the end of the ring |
| `A5xxSubmit.RingQueue.SubmitCmd` | qcom/opensource/graphics-kernel/adreno_a5xx_ringbuffer.c:414-530 | exactly what is then asked of the ring, context switch and list with their timestamps, flags and addresses; exactly when missing memory, a detached context or a fault is reported, and that a refusal before the switch changes nothing; exactly when there is no room for the list, from the pointers that the switch leaves whether it went out or not, and where the pointers are in the end; a list that is submitted with success finds its own context's page table loaded if and only if it was loaded before, or a switch of tables is due and got room and no fault |
| `A5xxSubmit.UserTimesStored` | qcom/opensource/graphics-kernel/adreno_a5xx_ringbuffer.c:309-333 | with user profiling, executing the two slots that a command calls stores the counter where the user wants the times of submission and retirement, and does nothing else |
| `A5xxSubmit.WrongTableRun` | qcom/opensource/graphics-kernel/adreno_a5xx_ringbuffer.c:335-530 | runs after a start of at most 94 words: two lists of one context, each of at most the 2000 buffers that are accepted, fill the ring; another context submits any accepted list, its switch finds no room, the list finds some after the processor has read on, and it goes out with the first context's page table loaded |
| `DrawContexts.RightInStep` | qcom/opensource/graphics-kernel/adreno_a5xx_ringbuffer.c:14-24 | if the table loaded last is the active context's, a switch of tables is due exactly if the new one differs and is not the default one |
| `StreamSizes.A5xxSwitchSize` | qcom/opensource/graphics-kernel/adreno_a5xx_ringbuffer.c:335-367 | a context switch is 12 words, or 30 with a page table |
| `StreamSizes.A5xxListSize` | qcom/opensource/graphics-kernel/adreno_a5xx_ringbuffer.c:439-499 | the exact number of words of a command buffer, for every list and all flags |
| `StreamSizes.A5xxSubmissionSize` | qcom/opensource/graphics-kernel/adreno_a5xx_ringbuffer.c:161-281 | the exact number of words of a submission, for every combination of flags, profiling buffers and device features |
| `StreamSizes.A3xxSubmissionSize` | qcom/opensource/graphics-kernel/adreno_a3xx_ringbuffer.c:206-307 | the exact number of words of a submission, for every combination of flags and profiling buffers |
| `StreamSizes.A3xxSwitchSize` | qcom/opensource/graphics-kernel/adreno_a3xx_ringbuffer.c:319-347 | a context switch is 11 words, or 61 with a page table |
| `StreamSizes.A3xxListSize` | qcom/opensource/graphics-kernel/adreno_a3xx_ringbuffer.c:402-427 | the exact number of words of a command buffer, for every list |
| `StreamMarks.SubmissionMarked` | qcom/opensource/graphics-kernel/adreno_a5xx_ringbuffer.c:165-167 | an a5xx submission starts with the identifier that tells a context's commands from internal ones |
| `StreamMarks.CommandsMarked` | qcom/opensource/graphics-kernel/adreno_a5xx_ringbuffer.c:439-499 | an a5xx command buffer starts and ends with its identifiers |
| `StreamMarks.A3xxSubmissionMarked` | qcom/opensource/graphics-kernel/adreno_a3xx_ringbuffer.c:206-208 | an a3xx submission starts with the same identifiers |
| `A5xxStart.FillStart` | qcom/opensource/graphics-kernel/adreno_a5xx.c:1520-1599 | the start commands take at most 21 of 42 reserved words, and the rollback leaves the pointer behind them |
| `A5xxStart.PostStart` | qcom/opensource/graphics-kernel/adreno_a5xx.c:1561-1607 | start commands go out exactly on an A530 or with preemption if there is room; then they are published, without preemption with a read-pointer report behind them, which always fits |
| `A5xxStart.StartExecutes` | qcom/opensource/graphics-kernel/adreno_a5xx.c:1520-1559 | the start commands do this and nothing else, in order: performance counters tick on an a530, the record's address is set with protection off, preemption and yielding are enabled, and the processor yields once, protected as before |
| `A3xxRingbuffer.VbifLock` | qcom/opensource/graphics-kernel/adreno_a3xx_ringbuffer.c:27-52 | fourteen words that stall the bus interface |
| `A3xxRingbuffer.VbifUnlock` | qcom/opensource/graphics-kernel/adreno_a3xx_ringbuffer.c:54-69 | six words that release it |
| `A3xxRingbuffer.CpSmmuReg` | qcom/opensource/graphics-kernel/adreno_a3xx_ringbuffer.c:73-81 | header count one more than the values, register address as a dword offset |
| `A3xxRingbuffer.TlbiAll` | qcom/opensource/graphics-kernel/adreno_a3xx_ringbuffer.c:84-100 | eleven words: invalidate, sync and wait for the status |
| `A3xxRingbuffer.PutPagetableSwitch` | qcom/opensource/graphics-kernel/adreno_a3xx_ringbuffer.c:105-156 | fifty words, in the order of the switch |
| `A3xxRingbuffer.BuildContextSwitch` | qcom/opensource/graphics-kernel/adreno_a3xx_ringbuffer.c:319-351 | a context switch fits its local array of 64 words and is exactly those packets |
| `A3xxRingbuffer.FillSubmission` | qcom/opensource/graphics-kernel/adreno_a3xx_ringbuffer.c:206-310 | the words written are the whole submission, eleven words at least of 55+n are left over, and the rollback is exact |
| `A3xxRingbuffer.WriteSubmission` | qcom/opensource/graphics-kernel/adreno_a3xx_ringbuffer.c:194-308 | a submission fits exactly if there is room; then it reads as its packets behind the words still unread; one that does not fit changes nothing |
| `A3xxRingbuffer.AddCmds` | qcom/opensource/graphics-kernel/adreno_a3xx_ringbuffer.c:180-317 | exactly which error comes back when; on success everything is published, and the words to be read are those before and the submission |
| `A3xxRingbuffer.PutEntry` | qcom/opensource/graphics-kernel/adreno_a3xx_ringbuffer.c:410-424 | an entry is at most four words: the call, or the same words behind a NOP that swallows exactly them |
| `A3xxRingbuffer.BuildCommand` | qcom/opensource/graphics-kernel/adreno_a3xx_ringbuffer.c:393-427 | the command buffer of 4+4n words is never overrun and holds exactly the command packets |
| `A3xxExecution.CommandsRun` | qcom/opensource/graphics-kernel/adreno_a3xx_ringbuffer.c:393-427 | executing a command buffer runs the unskipped buffers in order, by the low halves of their addresses, and does nothing else |
| `A3xxExecution.ReachedAsWanted` | qcom/opensource/graphics-kernel/adreno_a3xx_ringbuffer.c:419-422 | the buffers run are those asked for, whole, if and only if every unskipped one lies below 4 GB and has less than 2^32 dwords |
| `A3xxExecution.VerifiedReachedExactly` | qcom/opensource/graphics-kernel/adreno.c:3148-3179 | for a list that passed the size check, if and only if every unskipped one lies below 4 GB |
| `A3xxExecution.SubmissionExecutes` | qcom/opensource/graphics-kernel/adreno_a3xx_ringbuffer.c:206-307 | all that a submission does around its commands, for every combination of flags and whatever mode it starts in: fixup, profiling call and start timestamps before them; flush, profiling call, end timestamps and rollover after all of them |
| `A3xxExecution.ProtectedAfterExactly` | qcom/opensource/graphics-kernel/adreno_a3xx_ringbuffer.c:210-256 | a submission leaves the processor protected if and only if it was flagged not protected, or started protected without a fixup |
| `A3xxExecution.EveryRunExecutes` | qcom/opensource/graphics-kernel/adreno_a3xx_ringbuffer.c:180-317 | words that are one submission as published after another read as whole packets and do what each submission does in the mode it finds |
| `A3xxExecution.TableFollows` | qcom/opensource/graphics-kernel/adreno_a3xx_ringbuffer.c:105-156 | the page table after a run of submissions is that of the last context switch that loads one |
| `A3xxExecution.ProtectedBeforeExactly` | qcom/opensource/graphics-kernel/adreno_a3xx_ringbuffer.c:210-256 | in every sequence, protection is on before a submission if and only if no fixup has left it off, and it was on at the start or has been turned on since |
| `A3xxExecution.BuffersProtectedExactly` | qcom/opensource/graphics-kernel/adreno_a3xx_ringbuffer.c:210-256 | from a protected start the buffers of a submission run protected if and only if it has neither flag, and every fixup before it was followed, or accompanied, by a submission flagged not protected |
| `A3xxExecution.ExecPagetableSwitch` | qcom/opensource/graphics-kernel/adreno_a3xx_ringbuffer.c:105-156 | a page table switch does this and nothing else, in order: its stalling buffer runs, the bus is halted and that waited for, the table's two halves are set, the bus is released, the translation buffers are invalidated and that waited for |
| `A3xxExecution.ContextSwitchExecutes` | qcom/opensource/graphics-kernel/adreno_a3xx_ringbuffer.c:319-351 | a context switch loads its page table, if any, stores the id as the ring's and the device's current context, invalidates the cache, leaves the mode alone and does nothing else |
| `A3xxSubmit.RingQueue.RingExecutes` | qcom/opensource/graphics-kernel/adreno_a3xx_ringbuffer.c:180-317 | on one ring that submissions are added to and read from in any order, around its end as often as need be: all that is ever read, and what is still to be read, is whole packets and does exactly what was asked, and the page table in the end is that of the last switch |
| `A3xxSubmit.RingQueue.Read` | qcom/opensource/graphics-kernel/adreno_a3xx_ringbuffer.c:312-314 | the processor reads on by the words asked for or up to the write pointer, and that stays so |
| `A3xxSubmit.RingQueue.Add` | qcom/opensource/graphics-kernel/adreno_a3xx_ringbuffer.c:180-317 | adding a submission keeps that, and adds it to what was asked exactly if it succeeds; where the write pointer is then, also around the end of the ring |
| `A3xxSubmit.RingQueue.AddSwitch` | qcom/opensource/graphics-kernel/adreno_a3xx_ringbuffer.c:319-351 | a context switch goes out exactly if there is room for it and no fault, and then loads its page table, if any; where the pointers are then |
| `A3xxSubmit.RingQueue.SwitchContext` | qcom/opensource/graphics-kernel/adreno_a3xx_ringbuffer.c:319-351 | after a context switch, whose result nobody looks at, the page table is the new context's exactly if a switch of tables is due and got room and no fault, and otherwise stays; where the pointers are then |
| `A3xxSubmit.RingQueue.DrawctxtSwitch` | qcom/opensource/graphics-kernel/adreno_a3xx_ringbuffer.c:353-378 | the context becomes active whatever the switch returned, with the exact condition for its page table; only a detached one is refused, and then nothing changes |
| `A3xxSubmit.RingQueue.AddDraw` | qcom/opensource/graphics-kernel/adreno_a3xx_ringbuffer.c:449-450 | the commands leave the page table alone; which error comes back exactly when, and where the pointers are then, also around the end of the ring |
| `A3xxSubmit.RingQueue.SubmitCmd` | qcom/opensource/graphics-kernel/adreno_a3xx_ringbuffer.c:382-458 | exactly what is then asked of the ring, context switch and list with their timestamps, flags and addresses; exactly when missing memory, a detached context or a fault is reported, and that a refusal before the switch changes nothing; exactly when there is no room for the list, from the pointers that the switch leaves whether it went out or not, and where the pointers are in the end; a list that is submitted with success finds its own context's page table loaded if and only if it was loaded before, or a switch of tables is due and got room and no fault |
| `A3xxSubmit.WrongTableRun` | qcom/opensource/graphics-kernel/adreno_a3xx_ringbuffer.c:319-458 | runs after a start of at most 116 words, with two lists of one context and one of another, each of at most 2000 buffers, that do the same on this ring |
| `Gpmu.GpmuLoader.CreateLoadCmds` | qcom/opensource/graphics-kernel/adreno_a5xx.c:487-542 | the stream is built once, fits the precomputed size and is exactly the load packets; memory shortage changes nothing |
| `Gpmu.GpmuLoader.LoadGpmuFirmware` | qcom/opensource/graphics-kernel/adreno_a5xx.c:549-613 | which files are loaded, with which words; success is reported with nothing loaded if and only if the file does not start with a GPMU block or its image is too large for instruction RAM |
| `Gpmu.FillLoadCmds` | qcom/opensource/graphics-kernel/adreno_a5xx.c:513-539 | the loop cuts the image into packets of at most 127 words within the precomputed size |
| `Gpmu.ChunksWrite` | qcom/opensource/graphics-kernel/adreno_a5xx.c:520-534 | what the packets from an offset on set is the rest of the image, each word in its place, in order |
| `Gpmu.LoadsTheImage` | qcom/opensource/graphics-kernel/adreno_a5xx.c:487-542 | executing the stream sets word k of the image at instruction RAM base + k for all k, in order and nothing else, with protection off, and turns it on again |
| `Gpmu.Image` | qcom/opensource/graphics-kernel/adreno_a5xx.c:597-598 | the image is not empty and ends exactly at its block's end |
| `FirmwareBlocks.ReadFw2BlockHeader` | qcom/opensource/graphics-kernel/adreno_a5xx.c:759-808 | a header is accepted exactly if it has an even size of 2 to 10 words strictly inside its block, a sequence id first where one is due, and no older non-zero major version |
| `FirmwareBlocks.WalkAccepts` | qcom/opensource/graphics-kernel/adreno_a5xx.c:861-886 | a file that is good blocks in a row is walked to its end and the last LM block is recorded |
| `FirmwareBlocks.WalkCuts` | qcom/opensource/graphics-kernel/adreno_a5xx.c:861-885 | every walk cuts the file into good blocks up to where it stops, stops only at the end or where no good block starts, and has recorded the last LM sequence of those blocks |
| `FirmwareBlocks.WalkFinishesExactly` | qcom/opensource/graphics-kernel/adreno_a5xx.c:861-886 | the walk reaches the end exactly of the files that are good blocks in a row |
| `FirmwareBlocks.RecordedEndsItsBlock` | qcom/opensource/graphics-kernel/adreno_a5xx.c:880-881 | a recorded sequence is not empty, starts right behind its block's header, as long as the header's size says, and ends exactly where its block ends |
| `FirmwareBlocks.WalkRecordsInFile` | qcom/opensource/graphics-kernel/adreno_a5xx.c:861-885 | whatever is recorded lies in the file |
| `FirmwareBlocks.RegisterFile.LoadRegfile` | qcom/opensource/graphics-kernel/adreno_a5xx.c:832-894 | the file is kept exactly if it is good blocks in a row and an LM sequence is recorded; what is recorded is all of the last LM block behind its header, among the good blocks the file starts with; a file that records one is released, with the sequence still recorded, exactly if it is not good blocks in a row |
| `FirmwareBlocks.RecordsExactly` | qcom/opensource/graphics-kernel/adreno_a5xx.c:861-885 | a file records a sequence exactly if one of the good blocks it starts with is an LM block; otherwise what was recorded before stays |
| `RegSequence.InterpretEncoded` | qcom/opensource/graphics-kernel/adreno_a5xx.c:896-926 | executing the encoding of any operation list issues exactly those operations |
| `RegSequence.InterpretDecodes` | qcom/opensource/graphics-kernel/adreno_a5xx.c:896-926 | for any words, what was issued is what they encode up to where the interpreter stops, and it stops only where no whole operation starts |
| `RegSequence.SucceedsExactly` | qcom/opensource/graphics-kernel/adreno_a5xx.c:896-926 | success means the words are the encoding of some list, and conversely |
| `RegSequence.MeantWhenNarrow` | qcom/opensource/graphics-kernel/kgsl_device.h:649-654 | an operation does what its encoding says exactly if register and 64-bit value fit the 32-bit accessor |
| `RegSequence.SequencedDevice.ExecuteRegSequence` | qcom/opensource/graphics-kernel/adreno_a5xx.c:896-926 | the loop has exactly the effects of the operations the words start with, and returns success exactly for encodings |
| `RegisterProgram.LmInit` | qcom/opensource/graphics-kernel/adreno_a5xx.c:974-993 | the recorded words are run if there are any and limits are enabled, and an invalid sequence is forgotten after what came before the bad word was done |
| `RegisterProgram.LoadAndRun` | qcom/opensource/graphics-kernel/adreno_a5xx.c:832-993 | of a register file that is good blocks in a row, loading and running does exactly the operations encoded in its last LM block, in order |
| `CrashScript.ScriptReads` | qcom/opensource/graphics-kernel/adreno_a5xx_snapshot.c:1183-1218 | the script reads back as exactly its commands, and ends at its two zeros |
| `CrashScript.CommandsDump` | qcom/opensource/graphics-kernel/adreno_a5xx_snapshot.c:1183-1215 | executing the commands stores each item's values behind those of the item before |
| `CrashScript.DumpsEverything` | qcom/opensource/graphics-kernel/adreno_a5xx_snapshot.c:1183-1218 | running the script fills a buffer of the computed size with the value of everything listed, and leaves nothing of the old contents |
| `CrashScript.ReadsTileTheBuffer` | qcom/opensource/graphics-kernel/adreno_a5xx_snapshot.c:1183-1218 | the read targets tile the data buffer from its first byte to its last, without overlap |
| `CrashDump.Sizes` | qcom/opensource/graphics-kernel/adreno_a5xx_snapshot.c:1130-1163 | the sizing pass computes exactly the script's bytes without its end and the data's bytes |
| `CrashDump.InitShader` | qcom/opensource/graphics-kernel/adreno_a5xx_snapshot.c:1052-1080 | the four banks of a block, and the offset of the first |
| `CrashDump.CrashDumper.PutShaders` | qcom/opensource/graphics-kernel/adreno_a5xx_snapshot.c:1207-1211 | the commands of all shader blocks, and each block's stored offset |
| `CrashDump.CrashDumper.PutHlsq` | qcom/opensource/graphics-kernel/adreno_a5xx_snapshot.c:1212-1215 | the commands of all register sets, and each set's stored offset |
| `CrashDump.CrashDumper.Init` | qcom/opensource/graphics-kernel/adreno_a5xx_snapshot.c:1107-1219 | the script takes exactly the computed size and sixteen bytes, and is the script for the tables |
| `CrashReadback.MainListReadsBack` | qcom/opensource/graphics-kernel/adreno_a5xx_snapshot.c:679-722 | the main register list reads back the value each register had, on every device |
| `CrashReadback.GpmuListReadsBackExactly` | qcom/opensource/graphics-kernel/adreno_a5xx_snapshot.c:979-985 | the GPMU list, read from the start of the buffer again, reads back right on every device if and only if it is a prefix of the main list followed by itself |
| `CrashReadback.HlsqReadsBack` | qcom/opensource/graphics-kernel/adreno_a5xx_snapshot.c:796-808 | a set reads back from its stored offset what the aperture showed for it |
| `CrashReadback.BankReadsBackExactly` | qcom/opensource/graphics-kernel/adreno_a5xx_snapshot.c:636-637 | bank j of a shader block reads back right on every device if and only if j or the block's size is 0, since the offset mixes words and bytes |
| `CrashReadback.LaterBankMisread` | qcom/opensource/graphics-kernel/adreno_a5xx_snapshot.c:636-637 | a device on which a later bank is misread |
| `CrashSnapshot.SnapshotRegisters` | qcom/opensource/graphics-kernel/adreno_a5xx_snapshot.c:679-722 | the section holds the longest run of whole ranges that fits, numbers and words in turn, and has exactly that size |
| `CrashSnapshot.MainSectionRight` | qcom/opensource/graphics-kernel/adreno_a5xx_snapshot.c:679-722 | for the main list the words in that section are the registers' values |
| `CrashSnapshot.SnapshotHlsq` | qcom/opensource/graphics-kernel/adreno_a5xx_snapshot.c:810-834 | the section holds every set or, without room for all, nothing; entry by entry: register k of a set is its address plus k, with the word k behind its offset, behind the entries of the sets before it |
| `CrashSnapshot.HlsqSectionRight` | qcom/opensource/graphics-kernel/adreno_a5xx_snapshot.c:810-834 | with the stored offsets the words in that section are what the aperture showed, set after set |
| `CrashCapture.ScriptCaptures` | qcom/opensource/graphics-kernel/adreno_a5xx_snapshot.c:1107-1219 | the script that was built leaves every item's values in the data buffer, whatever was there |
| `CrashCapture.Capture` | qcom/opensource/graphics-kernel/adreno_a5xx_snapshot.c:971-1038 | from the tables to the snapshot's sections, on every device, in order and with the bytes left counted down: the main list's section with the longest run of whole ranges that fits and the registers' values, the GPMU list's with its numbers and the values read first, the sets' where register k of a set is its address plus k with what the aperture showed k words on, and one for each bank of each shader block; what has no room is left out |
| `CrashCapture.BankCopies` | qcom/opensource/graphics-kernel/adreno_a5xx_snapshot.c:597-642 | what is copied into the section of bank j of a block is, on every device, words of the first two banks, from the byte whose number is j times the size in words |
| `CrashCapture.LastBanksLost` | qcom/opensource/graphics-kernel/adreno_a5xx_snapshot.c:622-642 | two devices that agree on the first two banks of a block give the same words in all four of its sections |
| `CrashCapture.Snapshot.AddRegisters` | qcom/opensource/graphics-kernel/adreno_a5xx_snapshot.c:679-722 | the section of the longest run of whole ranges there is room for behind the section header, with the words at the start of the data buffer; without room for both headers nothing |
| `CrashCapture.Snapshot.AddSets` | qcom/opensource/graphics-kernel/adreno_a5xx_snapshot.c:810-834 | the section that lists every set entry by entry, or nothing without room |
| `CrashCapture.Snapshot.AddBank` | qcom/opensource/graphics-kernel/adreno_a5xx_snapshot.c:597-620 | the section of a bank, type, bank, size and the words copied from its offset, or nothing without room |
| `CrashCapture.Snapshot.AddShaders` | qcom/opensource/graphics-kernel/adreno_a5xx_snapshot.c:622-642 | the sections of all blocks, bank after bank, each with words of its block's first two banks |
| `CrashCapture.Snapshot.AddSection` | qcom/opensource/graphics-kernel/kgsl_snapshot.c:453-494 | a section that took bytes is kept and its bytes and header's are gone; one that took none leaves the snapshot alone |
| `TouchSafety.ClassifyMeans` | qcom/opensource/fingerprint/qbt_handler.c:329-347 | what the nested branches come to: a finger that stays in the area moves, one that comes into it is down, one that leaves or lifts is up, all else is dropped |
| `TouchSafety.TurnKeeps` | qcom/opensource/fingerprint/qbt_handler.c:317-362 | one slot's turn keeps the slot right, and a move is only reported of a slot that is down |
| `TouchSafety.DownExactlyInside` | qcom/opensource/fingerprint/qbt_handler.c:317-378 | in every run a slot is recorded down exactly if its last event is a finger in the area |
| `TouchSafety.EveryMoveFollowsDown` | qcom/opensource/fingerprint/qbt_handler.c:317-378 | in every run, the latest report of a slot before a move of it that is not itself a move says down |
| `TouchSafety.LineExactly` | qcom/opensource/fingerprint/qbt_handler.c:361-375 | after a run that reports a finger up or down the line is high exactly if a finger is down, or one was when a slot before it was reported |
| `TouchSafety.LineTellsDownExactly` | qcom/opensource/fingerprint/qbt_handler.c:361-375 | after a work run the line tells whether a finger is down, if and only if a condition on the state before it holds: when something is reported up or down, a finger will be left in the area or no such slot comes before one that is down; otherwise the line was right before |
| `TouchSafety.DownAfterExactly` | qcom/opensource/fingerprint/qbt_handler.c:317-378 | a finger is down after a work run exactly if the event some slot then knows is a finger in the area |
| `TouchSafety.LineHighInEveryRun` | qcom/opensource/fingerprint/qbt_handler.c:361-375 | in every run, whenever some slot is down the line is high |
| `TouchSafety.LineStaysHigh` | qcom/opensource/fingerprint/qbt_handler.c:297-380 | a run from a detector as it starts: two fingers put down in one frame and lifted in the next leave the line high with no finger down |
| `TouchFrames.AllFed` | qcom/opensource/fingerprint/qbt_handler.c:200-226 | after the codes of a frame with any fingers, each with its own slot, every finger's slot has its id and the absolute values of its coordinates, and nothing else is changed |
| `TouchFrames.WorkReports` | qcom/opensource/fingerprint/qbt_handler.c:317-378 | a work run reports each slot at most once, with its event's position |
| `TouchFrames.FrameReported` | qcom/opensource/fingerprint/qbt_handler.c:181-378 | after a frame and its work run each of its fingers' slots is down exactly if the id is not negative and the coordinates lie in the area; the slot reports once, with exactly those coordinates, down, move or up as its event before and the displacement decide, and keeps the displacement that is left |
| `TouchFrames.FrameInEveryRun` | qcom/opensource/fingerprint/qbt_handler.c:181-378 | the same of a frame in any run |
| `TouchFrames.BadSlotSticks` | qcom/opensource/fingerprint/qbt_handler.c:192-196 | after a slot code beyond the slots no later input changes what is seen, so every later frame is lost |
| `TouchDevice.TouchDetector.FilterByRadius` | qcom/opensource/fingerprint/qbt_handler.c:271-295 | displacements accumulate per slot, and start over exactly when they leave the radius or the filter is off |
| `TouchDevice.TouchDetector.TurnSlot` | qcom/opensource/fingerprint/qbt_handler.c:317-352 | the arrays change in this slot only, as the slot's turn says |
| `TouchDevice.TouchDetector.ProcessSlot` | qcom/opensource/fingerprint/qbt_handler.c:317-378 | state, line and reports after one slot |
| `TouchDevice.TouchDetector.TouchWork` | qcom/opensource/fingerprint/qbt_handler.c:297-380 | the work run's whole new state |
| `TouchDevice.TouchDetector.TouchReportEvent` | qcom/opensource/fingerprint/qbt_handler.c:181-241 | each code changes its own field of the current slot's event, coordinates to their absolute values, and nothing else of any slot; the whole new state, and whether a work run is scheduled |
| `TouchDevice.TouchDetector.FdReportEvent` | qcom/opensource/fingerprint/qbt_handler.c:122-136 | reports queue up to the queue's length and are dropped beyond it |
| `Timing.AhbTimeoutVal` | qcom/opensource/graphics-kernel/adreno.c:1917-1954 | the result r is found exactly if the largest power of two strictly below the NOC timeout is at least 1000 microseconds and fits five bits, and then 2^(r+1) is that power |
| `Timing.LargestBelowUnique` | qcom/opensource/graphics-kernel/adreno.c:1927-1936 | the largest power of two below a number is unique |
| `Timing.Counter.CounterDelta` | qcom/opensource/graphics-kernel/adreno.h:1691-1710 | the delta and the new last reading; without a register nothing |
| `Timing.DeltaRightExactly` | qcom/opensource/graphics-kernel/adreno.h:1699-1704 | one delta is the true count exactly without a wrap and after a reading that was not 0 |
| `Timing.OneTickLostPerWrap` | qcom/opensource/graphics-kernel/adreno.h:1691-1710 | over any non-zero readings with at most one wrap between neighbours, the elapsed count is the sum of the deltas plus the number of wraps |

## Left out

- Memory barriers and weak memory: steps are atomic and sequentially consistent; one critical section is one step.
- PreemptSafety.DoorbellSafety: takes setting TRIGGERED and writing CONTEXT_SWITCH_CNTL as one step, and a submission's look at the state word and its register write as one, because as two it holds only under the conditions that PreemptGrain and PreemptDoorbell state, the latter for both splits together; one program counter stands for the handler that owns the state word, so what follows such a step is followed only as far as the doorbell that goes wrong.
- PreemptDevice.AdrenoDevice.Recover: models recovery as one step that re-establishes the state after power-up, without the snapshot, the replay of commands and the power cycle; `next_rb` is not cleared, and its value means nothing in NONE.
- Timers and the dispatcher's own queues, its expiry fields and the power collapse around the handlers: whether the GPU could be woken is a parameter.
- The hardware: the command processor and the crash dumper are modelled as far as the streams are about them; what the processor stores is recorded, address and value in order, and has no further effect in the model.
- The context id beside the page table in the SMMU record: the preemption model carries the page table alone.
- Integer widths of sizes: stream lengths, script and data sizes and touch displacements are unbounded; words, addresses and timestamps have 32 or 64 bits.
- A5xxRingbuffer.AddCmds: does not model the profiling buffers' contents, the trace points and the time stamps taken for them.
- A5xxSubmit.RingQueue.SubmitCmd: does not model the reference counts of draw contexts, of which one that cannot be taken counts as detached, nor the constraint and preamble bookkeeping of the dispatcher.
- CrashCapture.Capture: keeps the snapshot as a list of sections, not as bytes in one buffer; the other sections are one bound on the bytes they leave.
- A5xxStart.PostStart: leaves out waiting for idle.
- Timing.AhbTimeoutVal: does not model the shift of a 32-bit 1 by 31; the comparison is made in 64 bits.
- FirmwareBlocks.ReadFw2BlockHeader: does not model the messages about minor versions and unknown fields, which change nothing.
- CrashDump.CrashDumper.Init: does not model the guards around the two allocations; both buffers exist from the start, and tables obey the field widths of the script words.
- CrashSnapshot.SnapshotRegisters: does not model the fallback that reads registers directly when the crash dumper did not run.
- TouchDevice.TouchDetector.TouchReportEvent: slot numbers are not negative, as the input core guarantees, and events of other types than the two handled are not fed.
- Changing the touch configuration while fingers are tracked, the factory test of the line, wakelocks, key events and the GPIO finger detect.
- Register tables, GPU lists, fixed packet blobs, probing, device trees, regulators, ioctls and the other GPU families.
- Interrupt acknowledgement of AHB_ERROR and the throttle adjustment: arithmetic on flags that the code does not keep to.
