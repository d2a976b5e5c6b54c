# The co-simulation checker, the disk host and the I/O adapter, proved

z486 is a pipelined 486-class CPU. Its simulator compares it, write by write,
with a reference CPU; emulates the host side of its IDE and ATAPI drives; and
takes snapshots it can resume from. This project models those parts in Dafny
and proves what they are relied on for. `dafny verify dfyconfig.toml` checks all
of it.

## What is modelled

**The write matcher** (`EventQueue`, `WriteMatcher`, `CosimRun`, `Matcher`). A
co-simulation is a state machine over the events fed to it: instructions of the
reference (the bytes they store and output), z486's writes and outputs, writes
by DMA and by the page walker, and the A20 line. Either side may lead.
`MatcherSoundness`, `RunSoundness` and `RunTheorems` prove that a run without a
divergence leaves equal memories; z486's memory is the fold of the writes it has
made (`CosimRun.ObserveAll`) and does not exist in the program. `MatcherCompleteness`
proves the converse: a CPU that follows the reference is never reported.
`OmittedWrites`, `OmittedRuns` and `OmittedTheorems` say exactly when a write
that changes nothing may appear on one side only; `UnequalRuns`, exactly when a
bus master's write or an adopted x87 store is safe. `Matcher` is the program's
own form, over the concrete queues, proved equal to the specification.

**Speculative steps** (`Paging`, `Speculation`, `Stepper`). The reference runs an
instruction on the data z486 has returned so far and undoes it when some is
missing or when it faults. The instruction is any deterministic program of
memory and port accesses. `PageTables` says which map the tables in RAM lay out,
and that the walk follows it; `Accesses`, what an access gives the instruction
and leaves in RAM, in terms of that map: a read after a write gives what was
written. `Rollback`, `Retries` and `SplitWrites` prove that the undo is exact,
when stalled attempts do not show, that faults are precise, and what a write
across a page boundary leaves; `Outcomes`, how a step ends and what each kind of
fault leaves. `Stepper` is the program's form.

**Issues and flags** (`Issues`, `IssueChecker`, `FlagEffects`, `FlagAdoption`).
The loop that decides, at each issue of z486, whether to run, interrupt, squash
or restart, over any reference; and which undefined flags are taken from z486.
`IssueHistory` follows what the reference was made to do: which vectors it took,
for which issue it ran, up to which count, and with which flags;
`IssueDecisions`, how each turn follows from what has happened. `IssueMachine` is
that reference as the speculative step and the matcher together, fed with what
comes over z486's buses: the books of the issues and the soundness of the
memories, of one machine over the same inputs. `FlagReference` decodes every
encoding to its mnemonic and compares the table of flag effects with the EFLAGS
cross-reference of the Intel SDM, volume 1, appendix A.

**The disk host** (`Ide`, `IdeAddresses`, `IdeRuns`, `IdeReads`, `IdeWrites`,
`IdePackets`, `IdePacketCommands`, `IdeReplies`, `IdePacing`, `IdeController`). The
22-state machine behind `tick`, following ATA/ATAPI-6 (T13/1410D), clauses 8 and
9. Runs are over every sequence of bus clocks in which the host asks for nothing
or for the data under way; the proofs keep an account of the traffic still owed,
so they hold at every moment of a run. `IdeReplies` says, in the numbers that the
guest sees, how every command that moves no sectors is answered. `IdeController`
is the object with its fields. `Streams`, `IdeImages`, `IdeCheckpoint` and
`IdeLayout` are the checkpoint format.

**Snapshots** (`Snapshots`, `SnapshotSaves`, `SnapshotStore`): keyframes, page
differences, and pruning by name.

**The I/O bus adapter** (`IoBus`, `IoAccess`): one step is one clock edge, over all
requests and wait patterns; and whole accesses over its pins, with any peripherals.

## Where the code and what it promises differ

* The comment at `verilator/cosim/cosim86.c:525-527` says silent writes may appear
  on one side only. They may exactly under a guard on every comparison
  (`OmittedRuns.Fine`). A changing write must not meet a silent entry of its byte
  that z486 left out; and while the oldest instruction does not list its byte,
  the reference's RAM must not hold its value yet, or it is swallowed as a
  repetition. A repetition must meet an equal silent entry, RAM that holds its
  value, or nothing but silent entries on the way to either. Under the guard a run
  is accepted and drains (`OmittedTheorems.GuardIff`). A z486 that makes no
  repetitions is accepted and drains only under the guard; one that does can also
  have a swallowed write's entry matched by a later repetition, and that is all
  (`OmittedTheorems.OmissionsPassIff`, `OmittedTheorems.DrainsIff`).
  `OmittedExamples` has a run of each shape: reported at the silent entry,
  swallowed and reported later, a repetition reported, and swallowed but drained.
* A DMA or walker write is safe exactly when nothing that changes its byte is in
  flight (`UnequalRuns.PokeSafeIff`); adopting an x87 store, exactly when no later
  write of the byte leaves another value (`UnequalRuns.AdoptionSafeIff`, for runs
  in which such stores are adopted throughout). Otherwise
  a run that reports nothing ends with unequal memories
  (`UnequalExamples.PokedRun`, `UnequalExamples.AdoptedRun`). Among writes of z486
  that waited and are compared in one step, a careless adoption can be mended by the
  next (`UnequalExamples.MendedRun`); what such a step leaves is safe exactly when it
  is settled (`UnequalRuns.EventSafeIff`).
* A reset does not clear the mark that z486 cut the pending instruction short, so
  the first instruction after it is not run by the reference, and the checker
  reports a divergence that is none (`Issues.CutOutlivesReset`).
* The undo log holds 4096 changes; one more is lost (`Rollback.FullLogLosesAByte`,
  `LogLimit.LastChangeKept`). The last device address read is not part of the
  rollback, so stalled attempts show exactly when it decides how much is skipped
  before the first device read of the last attempt (`Retries.RetriesEndAsOneStep`,
  `Retries.ReplayedReadBreaksRetry`).
* The table of flag effects is the manual's but for these: ARPL and IRET are not
  in it as writers, INTO, PUSHF and SALC not as readers, and after SAR by the
  operand's size or more it takes CF for undefined, which only SHL and SHR leave
  it (`FlagReference.TableIsManualIff`).
* Adoption takes z486's flags where the table of flag effects leaves them
  undefined. IRET and ARPL define flags and are not in the table, so flags they
  defined can be taken over (`FlagAdoption.InterruptReturnOverwritten`);
  `FlagAdoption.DefinedFlagsStand` says exactly when none is.
* A CD READ delivers its data whole exactly when the host's byte count limit has
  room for a block, one edge case aside (`IdePackets.CdDataWholeIff`). The blocks
  of a READ that failed are still there for the next command: what follows a
  REQUEST SENSE's data is an error or data of the disc, by the limit that the
  REQUEST SENSE came with (`IdePacketCommands.SenseAfterRead`,
  `IdePacketCommands.SenseByLimit`).
* Snapshot names sort as their cycles only below ten to the sixteen
  (`Snapshots.LongerNamesIff` for the longer ones). After a save at an earlier
  cycle than one already there the keyframe in use can be gone, or overwritten
  under another snapshot (`Snapshots.EarlierSaveBreaksNext`,
  `SnapshotSaves.KeyframeOverwritten`); `SnapshotSaves.EverySaveGoodIff` says exactly
  when neither happens.

## Model

| member | source | states |
|---|---|---|
| EventQueue.Queue.Push | verilator/cosim/cosim86.c:76-90 | Through compaction and growth, a push appends to the queue's contents and changes nothing else of them |
| Matcher.Matcher.MatchWrite | verilator/cosim/cosim86.c:528-577 | The loop over the concrete queue, with its in-place marks, decides as the specification does and leaves its queues and RAM |
| Matcher.Matcher.AdvanceExp | verilator/cosim/cosim86.c:521-523 | Exactly the matched entries at the head are dropped |
| Matcher.Matcher.Search | verilator/cosim/cosim86.c:540-545 | The scan finds the first unmatched entry of the byte in the oldest instruction, or its end |
| Matcher.Matcher.CommitWrites | verilator/cosim/cosim86.c:596-614 | Staged writes join the expected stream in order under one group, then z486's early writes are matched in order up to the first error |
| Matcher.Outputs.MatchIo | verilator/cosim/cosim86.c:579-592 | Port writes are compared in order, or queued when z486 is ahead |
| Matcher.Outputs.CommitOutputs | verilator/cosim/cosim86.c:602-618 | Outputs of a step are compared with z486's early ones in order |
| RunTheorems.BytesAgree | verilator/cosim/cosim86.c:369-391 | After every error-free run, x87 stores checked or adopted, a RAM byte with no changing reference write outstanding and none of z486's queued is equal on both sides, if no x87 store of that byte was adopted under a later write of another value |
| RunTheorems.StrictIsCareful | verilator/cosim/cosim86.c:544 | Where x87 stores are checked, every run meets that condition |
| RunTheorems.DrainedRunsAgree | verilator/cosim/cosim86.c:528-619 | With no divergence, no such adoption and drained queues both memories are equal, byte by byte, the writes to each device byte are as many and the same but for adopted values, and the outputs are equal |
| RunTheorems.DeviceStreamsAgree | verilator/cosim/cosim86.c:386-391 | The two sides' writes to a device or protected byte are one sequence, but for what is outstanding or queued, and for the values of x87 stores where those are adopted |
| RunTheorems.OutputsAgree | verilator/cosim/cosim86.c:579-618 | The two sides' port writes are one sequence, but for what is outstanding or queued |
| RunTheorems.OneSidedLead | verilator/cosim/cosim86.c:528-619 | After every error-free run z486's queue is empty or nothing of the reference is outstanding, for memory and for ports |
| UnequalRuns.PokeSafeIff | verilator/cosim/cosim86.c:1075-1082 | After any error-free run, a DMA or walker write is one after which every careful error-free drained run agrees at its byte, if and only if no write in flight leaves the byte with another value |
| UnequalRuns.HarmfulPokeShows | verilator/cosim/cosim86.c:1075-1082 | From any state of either side's lead, a write that is not harmless can be followed by an error-free run that drains with unequal memories |
| UnequalExamples.PokedRun | verilator/cosim/cosim86.c:1075-1079 | The shortest such run |
| UnequalRuns.AdoptionSafeIff | verilator/cosim/cosim86.c:546-555 | With x87 stores adopted throughout: after any careful error-free run, the byte of z486's adopted write agrees after every careful error-free drained run if and only if no later outstanding write of it leaves another value |
| UnequalRuns.CarelessAdoptionShows | verilator/cosim/cosim86.c:546-555 | If one does, an error-free run in which nothing more is adopted drains with unequal memories |
| UnequalRuns.EventSafeIff | verilator/cosim/cosim86.c:528-619 | After any careful error-free run and any one event, adoptions among z486's queued writes included: the byte agrees after every careful error-free drained run if and only if its last outstanding write, or z486's value, is what the reference's RAM holds |
| UnequalExamples.AdoptedRun | verilator/cosim/cosim86.c:546-555 | The shortest run in which an adoption leaves the memories unequal |
| UnequalExamples.MendedRun | verilator/cosim/cosim86.c:596-614 | Two queued writes are adopted in one step, the first carelessly, and the memories are equal |
| OmittedWrites.Compares | verilator/cosim/cosim86.c:528-576 | One comparison takes the first unmatched entry of its byte, wherever it is, or queues the write, if all before that entry is silent; or nothing, if RAM holds the value and the oldest instruction does not list the byte; else it is reported |
| OmittedTheorems.GuardIff | verilator/cosim/cosim86.c:525-570 | For a z486 that makes every changing write and any others, the guard holds at every comparison if and only if the run is accepted and no changing write is taken for a repetition or the other way round; and then it drains |
| OmittedTheorems.OmissionsPassIff | verilator/cosim/cosim86.c:525-570 | The guard holds at every comparison if and only if the run is accepted and drains with no repetition taking a changing write's place; for a z486 that repeats nothing, if and only if it is accepted and drains |
| OmittedTheorems.DrainsIff | verilator/cosim/cosim86.c:525-570 | Such a run, if accepted, drains if and only if for every byte as many changing writes were lost as were stolen |
| OmittedExamples.OmittedSilentWriteReported | verilator/cosim/cosim86.c:540-552 | z486 leaves out a silent write, does all else, and is reported at the next write of the byte |
| OmittedExamples.SwallowedWriteReported | verilator/cosim/cosim86.c:565-570 | z486 leaves out a silent write, its next write is swallowed, and the one after that reported |
| OmittedExamples.AddedRewriteReported | verilator/cosim/cosim86.c:565-576 | z486 rewrites a byte with its value, as the reference does not, and is reported |
| OmittedExamples.LostAndStolenRun | verilator/cosim/cosim86.c:540-570 | A write is swallowed, its entry is matched by a repetition, and the run drains |
| MatcherCompleteness.FollowersAreAccepted | verilator/cosim/cosim86.c:528-619 | A z486 that performs the reference's writes group by group, keeping same-byte order, is never reported under any interleaving, and the queues drain |
| Paging.WalkByPage | verilator/cosim/cosim86.c:227-256 | Whether a byte translates, and to which frame, depends on its page alone |
| PageTables.WalkFollowsMap | verilator/cosim/cosim86.c:222-256 | For every RAM, and the map from pages to frames, users and writability that its two levels of little-endian entries lay out (directory at cr3's page by the upper ten bits of an address, table by the next ten): the walk gives the page's frame and the offset if the access is permitted, and else a fault that tells whether the page was present, whether it was a write, and whether the user's |
| PageTables.EveryRamLaysOutOne | verilator/cosim/cosim86.c:236-249 | And every RAM lays out exactly one such map |
| PageTables.A20Wraps | verilator/cosim/cosim86.c:227-228 | With A20 off an odd megabyte is the even one below it |
| PageTables.TopIsBios | verilator/cosim/cosim86.c:229-231 | With A20 on every address is its own, but the last 256K are the 256K below 16M |
| PageTables.RamBytes | verilator/cosim/cosim86.c:365-367 | What a CPU write can change is the RAM's bytes but for A0000 to FFFFF |
| Accesses.AccessByMap | verilator/cosim/stubs.c:124-147 | The bytes of an access are where that map has them, and it faults at the first that is not permitted, with its address (an instruction fetch, its 16-byte line) and the code's meaning |
| Accesses.ReadGives | verilator/cosim/stubs.c:140-152 | A read resumes the instruction with its bytes, low address first: z486's data in order for device bytes, FF at or past the RAM's end, and what RAM holds for all others, protected ones too |
| Accesses.ReadFaults | verilator/cosim/stubs.c:143-145 | A read with a byte that does not translate gives all ones and the fault, and changes no memory |
| Accesses.StoreDoes | verilator/cosim/stubs.c:154-181 | A write whose bytes translate stores each at its place as far as that is RAM, changes nothing else of RAM, and stages all of them |
| Accesses.ReadAfterWrite | verilator/cosim/stubs.c:140-181 | A write to bytes of RAM, any accesses that do not write there, and a read of the same linear bytes under the same map: the instruction gets exactly what was written, across pages too |
| Accesses.InGives | verilator/cosim/cosim86.c:393-408 | An input gives z486's next bytes in order and is reported if and only if z486 read another port; without data it stalls |
| Accesses.OutSplits | verilator/cosim/cosim86.c:410-415 | An output is its bytes at consecutive ports in order |
| SplitWrites.TranslateByPages | verilator/cosim/stubs.c:124-171 | The bytes of an access translate as its one or two pages do; a fault is at its first byte or at the boundary |
| SplitWrites.WriteInPage | verilator/cosim/stubs.c:162-181 | A write within a page stores all of its bytes, or nothing |
| SplitWrites.WriteAcrossPages | verilator/cosim/stubs.c:162-181 | A write across a boundary stores all, nothing, or exactly the bytes below the boundary, which it records |
| Rollback.UndoRestoresIff | verilator/cosim/cosim86.c:511-516 | The undo restores RAM if and only if every byte the log does not mention is unchanged |
| Rollback.AttemptUndone | verilator/cosim/stubs.c:51-59 | After any attempt the undo gives back the RAM before it if and only if all that it changed is in the log, as up to 4096 changes are |
| Rollback.FullLogLosesAByte | verilator/cosim/stubs.c:28-59 | With the log full, one more byte changed for the first time is not given back |
| LogLimit.LastChangeKept | verilator/cosim/stubs.c:28-59 | An instruction that stores 4097 bytes and stalls keeps the last of them |
| Rollback.StallRestores | verilator/cosim/cosim86.c:937-942 | A stalled step changes nothing but the last device address read and a pending error, and RAM if and only if the log does not hold all its changes |
| Rollback.FaultsArePrecise | verilator/cosim/cosim86.c:943-968 | A faulting instruction leaves RAM and the staged writes as they were plus exactly the recorded first-page bytes, and no output |
| Rollback.CompletedStepStores | verilator/cosim/cosim86.c:596-601 | What a completed step commits is the list of stores that made its RAM, so it is a step of the co-simulation |
| Outcomes.StackTopProbed | verilator/cosim/cosim86.c:324-332 | An ENTER that has not faulted faults exactly if the map does not permit a write to some byte of its new stack top, at the first such byte |
| Outcomes.OwnFaultUndone | verilator/cosim/cosim86.c:943-968 | A fault of an instruction's own accesses undoes them but for a split write's first part |
| Outcomes.ProbeKeepsPushes | verilator/cosim/cosim86.c:950-964 | A fault of the probe keeps ENTER's pushes, with the CPU as it was before them |
| Outcomes.StepOutcomes | verilator/cosim/cosim86.c:854-1029 | A step stalls if and only if data are missing, completes without a fault if and only if z486 read what it reads, leaving the rest of the data, and with one if and only if the handler's entry neither faults nor differs, dropping them |
| Retries.RunAlikeIff | verilator/cosim/cosim86.c:339-357 | A step that reports nothing does the same with another last device read if and only if what is skipped before its first device byte is alike |
| Retries.RetriesEndAsOneStep | verilator/cosim/cosim86.c:854-942 | Any stalled attempts and then a last one end as that one alone (RAM, CPU, writes, outputs, count and data left) if the skip before its first device byte is alike, and only then unless it reports a divergence alone |
| Retries.StalledReportsNothing | verilator/cosim/cosim86.c:339-357 | With one read queue, an attempt that has stalled reports no mismatch afterwards |
| Retries.ReplayedReadBreaksRetry | verilator/cosim/cosim86.c:333-357 | A step that completes at once but fails after one stalled attempt, because of a replayed device read |
| Stepper.Stepper.StoreByte | verilator/cosim/stubs.c:154-160 | A byte is staged with its silence, logged if it changes, and stored unless it is a device, protected or unmapped |
| Stepper.Stepper.WriteN | verilator/cosim/stubs.c:162-181 | The loops translate every byte before storing any, but for the first page of a split write |
| Stepper.Stepper.ReadByte | verilator/cosim/cosim86.c:339-363 | Device bytes come from z486's data, repeats of the last one skipped; the step stalls when there are none |
| Stepper.Stepper.UndoRam | verilator/cosim/cosim86.c:511-516 | The logged changes are taken back, the last one first |
| Stepper.Stepper.Settle | verilator/cosim/cosim86.c:950-968 | A fault leaves the state it is delivered in: undone but for the first page's bytes, or kept for a repeated string or a probed ENTER |
| Stepper.Stepper.Step | verilator/cosim/cosim86.c:854-1029 | One step in place, stalled and undone, faulted, failed or completed, as the specification of a step says |
| Issues.ProcessBalanced | verilator/cosim_host.cpp:193-265 | Whatever is queued, the books of issues, steps, interrupts and squashes balance unless a divergence is reported |
| Issues.IssuesAreConserved | verilator/cosim_host.cpp:193-309 | Over every run, through any resets: issues taken are those stepped, restarted, squashed, dropped and the one pending; the reference ran the steps, interrupts and fetch faults; squashes never exceed faults; every accepted issue was at the reference's program counter |
| Issues.CutOutlivesReset | verilator/cosim_host.cpp:196-309 | The first issue after a reset is run by the reference if and only if the instruction pending before it had not been cut; otherwise the second issue, if elsewhere, is reported unless the first instruction faults on the way there |
| Issues.RegistersDivergeIff | verilator/cosim_host.cpp:98-125 | The register check fails at an issue if and only if some register has differed at 64 issues in a row |
| IssueHistory.RunsFollow | verilator/cosim_host.cpp:193-265 | Over every unreported run the reference did exactly this, in order: each issue's instruction, run when the next is taken up, to that one's ECX where a vector waits inside a REP string, and then that one's flags; each vector acknowledged, in order, unless dropped by a reset or still queued; and the fetch faults |
| IssueHistory.HandlersAreVectors | verilator/cosim_host.cpp:226-236 | The handlers it entered are those of the vectors delivered, in order |
| IssueHistory.NoLongStreak | verilator/cosim_host.cpp:98-125 | Over every unreported run no register differs at 64 accepted issues in a row |
| IssueDecisions.MarksAreHistory | verilator/cosim_host.cpp:193-412 | Over every unreported run the checker's three marks are what has happened: an instruction is pending if an issue was accepted and its instruction neither run, given up nor reset since; a fault can still squash if the instruction run last faulted and nothing was squashed, accepted or reset since; and z486 has cut a pending instruction since one was last run or given up, resets or not |
| IssueDecisions.TurnDecides | verilator/cosim_host.cpp:193-265 | From those marks, a turn goes on if and only if the rules allow it a course, and takes that one: give up, run or run to the count; take a vector exactly if one waits and the reference is elsewhere; accept there, squash for an unpaid fault, or step to a faulting fetch; it waits if and only if the instruction has to, and reports all else |
| IssueMachine.IsLawful | verilator/cosim/cosim86.c:854-1057 | The speculative step, the matcher and interrupts together are a reference as the issues need it |
| IssueMachine.StepIsCosimStep | verilator/cosim/cosim86.c:596-619 | What a completed step commits is a step of the co-simulation's state machine |
| IssueMachine.FollowReaches | verilator/cosim_host.cpp:284-412 | Over every sequence of inputs of which none is reported, where what is undone is in the log, the reference is where the events since the last reset lead, and z486 is what its buses showed |
| IssueMachine.IssuesCheckMemory | verilator/cosim_host.cpp:284-412 | And so the books balance over the inputs; and with harmless bus masters and careful adoptions since the last reset every byte with nothing in flight is the same in the fold of the writes that came and in the reference's RAM, both memories when all is drained, and the outputs too |
| IssueMachine.IssuesAreFollowed | verilator/cosim_host.cpp:284-412 | Over every unreported sequence of inputs the machine's reference did what the issues and vectors that came ask for, in order |
| IssueChecker.Checker.ProcessIssues | verilator/cosim_host.cpp:193-265 | The loop in place computes that result |
| IssueChecker.Checker.Reset | verilator/cosim_host.cpp:304-309 | A reset in place drops the queues and the pending instruction and keeps the cut and the counts of mismatches |
| IssueChecker.Checker.CheckRegisters | verilator/cosim_host.cpp:105-125 | The loop over the registers keeps each one's count of consecutive mismatches and stops at the first too long |
| IssueChecker.Checker.AcceptOrSquash | verilator/cosim_host.cpp:238-262 | An issue is squashed, accepted after a faulting fetch, or accepted at once |
| FlagReference.ConditionReads | verilator/cosim/iss_glue.h:394-397 | The flags of a condition are exactly those that its outcome can turn on |
| FlagReference.TableIsManualIff | verilator/cosim/iss_glue.h:402-476 | For every encoding, count, immediate and outcome, the flags written, left undefined and read are those of the mnemonic's row in the Intel SDM, volume 1, appendix A, with the shifts' count rules, if and only if it is not ARPL, IRET, INTO, PUSHF, SALC, or SAR by the operand's size or more |
| FlagReference.EncodingsAgree | verilator/cosim/iss_glue.h:402-476 | Two encodings of one mnemonic agree |
| FlagReference.LogicMnemonics | verilator/cosim/cosim86.c:817-831 | The instructions whose AF is cleared are AND, OR, XOR and TEST in every encoding |
| FlagReference.OtherMarks | verilator/cosim/iss_glue.h:402-476 | The branch mark is Jcc, LOOPE and LOOPNE; a result is undefined for a double shift by more than the size and a scan of zero |
| FlagAdoption.SetsAreHistory | verilator/cosim/cosim86.c:1014 | The two halves of the flag word are the flags whose latest writer by the table left them undefined none, or one, adoption ago |
| FlagAdoption.AdoptedIff | verilator/cosim/cosim86.c:1060-1068 | After every run an adoption takes a flag if and only if its latest writer by the table left it undefined at most one adoption before |
| FlagAdoption.AdoptedByManual | verilator/cosim/cosim86.c:1014-1068 | In the manual's terms, over every run without those: a flag is taken if and only if the latest instruction to change it left it undefined, at most one adoption before |
| FlagAdoption.DefinedFlagsStand | verilator/cosim/cosim86.c:1014-1068 | Over every run, no flag that was in fact last defined is taken over if and only if every instruction is in the table as a writer of the open flags it defines |
| FlagAdoption.InterruptReturnOverwritten | verilator/cosim/cosim86.c:1060-1068 | After MUL, an adoption and IRET, the ZF that IRET set is taken over |
| FlagAdoption.Register.Finish | verilator/cosim/cosim86.c:1005-1014 | The bookkeeping of a completed instruction, in place |
| FlagAdoption.Register.AdoptFlags | verilator/cosim/cosim86.c:1061-1068 | The adoption, in place |
| IdeAddresses.GetUndoesPut | verilator/ide_hps.cpp:459-489 | get_lba undoes put_lba for every address in range, and put_lba leaves 1 <= sector <= spt and head < heads |
| IdeAddresses.PutUndoesGet | verilator/ide_hps.cpp:459-489 | put_lba undoes get_lba on the registers it could have left |
| IdeAddresses.AdvanceWalks | verilator/ide_hps.cpp:1121 | Repeated advancing walks consecutive sectors, modulo the span of the registers |
| IdeReads.RequestedAddress | verilator/ide_hps.cpp:1038-1047 | The sector a command's taskfile names |
| Ide.Next | verilator/ide_hps.cpp:975-1269 | Every step keeps the geometry, the tables' sizes and every index in bounds |
| IdeRuns.CommandArrives | verilator/ide_hps.cpp:981-1057 | A command is read as six words from six registers and decoded into the taskfile's fields |
| IdeRuns.BlockTellsRegs | verilator/ide_hps.cpp:1069-1088 | The register block holds every register in its place |
| IdeReads.ReadRuns | verilator/ide_hps.cpp:1101-1151 | At every moment of a read, what was sent and what is still owed is the command's traffic, and each step that is not a wait is one less to go |
| IdeReads.ReadSends | verilator/ide_hps.cpp:1106-1136 | A read's data are the sectors from its address on, in order, zeros past the image |
| IdeReads.BlockAfterSector | verilator/ide_hps.cpp:1121-1139 | The block after each sector stands at the next address with the sectors left |
| IdeReads.EndMarksLastBlock | verilator/ide_hps.cpp:1121-1126 | On the bus, END is in the last sector's block and in no other |
| IdeReads.ReadCommand | verilator/ide_hps.cpp:843-861 | READ SECTORS as a whole, a count of 0 meaning 256: a beginning of its traffic at any time, over after 267 steps a sector, its data the sectors asked for, the image untouched |
| IdeWrites.WriteRuns | verilator/ide_hps.cpp:1153-1208 | At every moment of a write the accounts of traffic, steps, words and image hold |
| IdeWrites.LandInImage | verilator/ide_hps.cpp:1192-1193 | Words in range are stored as one stretch of the image and nothing else changes |
| IdeWrites.LandElsewhere | verilator/ide_hps.cpp:1159-1193 | A byte of a sector the write does not name never changes, in range or not |
| IdeWrites.WriteCommand | verilator/ide_hps.cpp:1153-1208 | WRITE SECTORS as a whole: the image holds the words taken so far, 256 a sector when it is over |
| IdeWrites.SectorsStay | verilator/ide_hps.cpp:1101-1208 | Over any sequence of reads and of writes that name other sectors, the sectors stay as they are |
| IdeWrites.WriteThenRead | verilator/ide_hps.cpp:1101-1208 | A write stores exactly the words it took, and a read of the same sectors, named in either way and after any such commands, sends them back |
| IdePackets.PacketArrives | verilator/ide_hps.cpp:1210-1239 | Six words are the packet's twelve bytes, and the buffer pointer is reset before the reply |
| IdePackets.CdReadSends | verilator/ide_hps.cpp:533-557 | A READ on the disc with a limit of a block or more sends exactly its blocks in as few data phases as the limit allows |
| IdePackets.CdDataWholeIff | verilator/ide_hps.cpp:491-543 | The data phases are the blocks asked for if and only if the limit has room for a block, one edge case aside |
| IdePackets.CdSucceedsIff | verilator/ide_hps.cpp:533-550 | A READ ends in success if and only if all its blocks are on the disc |
| IdePacketCommands.PacketHandedOver | verilator/ide_hps.cpp:775-791 | From the command block through any wait to the packet: the drive has its twelve bytes and this command's limit, and the bus has seen the fetches, the block that asks for it and its reads |
| IdePacketCommands.CdReadCommand | verilator/ide_hps.cpp:638-648 | READ(10) and READ(12) over every run from the command block on: traffic, steps, the final status, the blocks left, the data, and as few data phases as the limit allows |
| IdePackets.FailedReadKeepsBlocks | verilator/ide_hps.cpp:545-550 | A READ that fails at once keeps its blocks |
| IdePacketCommands.OthersGoOn | verilator/ide_hps.cpp:586-760 | Any other command leaves the blocks of a READ, and if it sends data goes on with that READ |
| IdePackets.CleanEndIff | verilator/ide_hps.cpp:1259-1268 | What follows a data phase is one block of success if and only if no blocks are left |
| IdePacketCommands.SenseAfterRead | verilator/ide_hps.cpp:602-613 | From a READ that is over through the next PACKET command to REQUEST SENSE: its data tell how the READ ended, and the blocks left decide, under the new limit, between success, an error and data of the disc |
| IdePacketCommands.SenseThenBlocks | verilator/ide_hps.cpp:533-613 | Over those runs to their end, all the data: the sense data cut to the REQUEST SENSE's limit, and then what the READ has left on the disc, in pieces of that limit |
| IdePacketCommands.SenseByLimit | verilator/ide_hps.cpp:533-550 | Over such runs on a disc of one block: the sense data alone with the failed READ's limit, and the sense data and the whole disc with a smaller one |
| IdeReplies.RepliedAtOnce | verilator/ide_hps.cpp:762-934 | Every command answered by one register block, whole: the block's bytes (an abort without a drive, for an unknown command, and with the packet signature; success of the others; the signature of DEVICE RESET), and what it leaves: the geometry that INITIALIZE DEVICE PARAMETERS asks for, the sense data of a rejected PACKET, or nothing |
| IdeReplies.Identified | verilator/ide_hps.cpp:875-888 | IDENTIFY DEVICE and IDENTIFY PACKET DEVICE, whole: the drive's 256 words in order and the block that ends them |
| IdeReplies.ResetSigns | verilator/ide_hps.cpp:981-1014 | A reset, whole: the device register read, the signature sent, and nothing lost |
| IdeReplies.PacketReplied | verilator/ide_hps.cpp:586-760 | Every packet command that sends nothing, whole: how it ended, with which sense data |
| IdeReplies.PacketSends | verilator/ide_hps.cpp:622-627 | Every packet command with a reply, READ CAPACITY among them (the last address and 2048, the highest byte first), for any pace: the reply cut to the limit, its length in the block after it, and the end |
| IdePacing.TicksAreSteps | verilator/ide_hps.cpp:952-975 | Clocks with pauses are steps of the phase machine on the inputs they see |
| IdePacing.ReadAtAnyPace | verilator/ide_hps.cpp:952-1151 | Clock by clock, with any delays, a read sends what it has to |
| IdePacing.WriteAtAnyPace | verilator/ide_hps.cpp:952-1208 | And a write stores the words its clocks took, where they belong |
| IdePacing.TicksFollowSteps | verilator/ide_hps.cpp:952-1274 | Every state of the paced machine, with the operations issued, is one of the machine without pauses |
| IdePacing.StepsAreReached | verilator/ide_hps.cpp:952-1274 | And each of those is reached within 65 clocks a step |
| IdePacing.DelaysDoNotMatter | verilator/ide_hps.cpp:936-973 | Whatever one sequence of delays leads to, any other does, too |
| IdeController.HpsIde.ReadRegs | verilator/ide_hps.cpp:1106-1129 | A sector is opened for reading, in place |
| IdeController.HpsIde.WriteRecv | verilator/ide_hps.cpp:1192-1208 | A word is stored and the next one asked for, or the sector closed, in place |
| IdeController.HpsIde.HandleCmd | verilator/ide_hps.cpp:822-934 | The command dispatch, in place |
| IdeController.HpsIde.DoPacket | verilator/ide_hps.cpp:559-760 | The packet dispatch, in place |
| IdeController.HpsIde.PrepareCdromRead | verilator/ide_hps.cpp:533-557 | The next data phase, in place |
| IdeController.HpsIde.Tick | verilator/ide_hps.cpp:952-1275 | A clock in place: reset, pause, delay, or a step and the pause it causes |
| Streams.ReadUndoesFields | verilator/ide_hps.cpp:18-26 | A record of little-endian fields is read back, and the stream goes on after it |
| IdeImages.OverlayRestoresIff | verilator/ide_hps.cpp:258-297 | The dirty sectors over the file as it is now give the image if and only if its clean sectors are unchanged |
| IdeImages.ImageRoundTrip | verilator/ide_hps.cpp:239-298 | A saved image is loaded back with its partial last sector, using the stream exactly, if and only if the clean sectors agree |
| IdeImages.Save | verilator/ide_hps.cpp:239-268 | The loops write that section |
| IdeImages.Patch | verilator/ide_hps.cpp:292-297 | The loop puts the sectors in place |
| IdeCheckpoint.CheckpointRoundTrip | verilator/ide_hps.cpp:116-220 | A version 3 checkpoint restores every saved field and the sector pointer and uses the stream exactly; the image under the condition above |
| IdeLayout.LayoutIs | verilator/ide_hps.cpp:18-162 | Every field of a version 3 checkpoint is at its fixed place, or after the image and the name, as a little-endian number of its size, and the stream ends with the last |
| Snapshots.NamesInOrder | verilator/main.cpp:2438-2439 | Below ten to the sixteen, names sort as their cycles do |
| Snapshots.LongerNamesIff | verilator/main.cpp:2478 | Names of different lengths sort as their cycles if and only if the longer one's beginning is no less |
| Snapshots.OverlayOfDiff | verilator/cosim_host.cpp:561-566 | The pages that differ, put over the keyframe, are the RAM |
| Snapshots.SaveSound | verilator/cosim_host.cpp:552-592 | A save at a later cycle keeps every remaining snapshot restorable, its pages at most a quarter, and each keyframe used at most 32 times |
| Snapshots.EverySnapshotRestores | verilator/main.cpp:2474-2496 | Over every run of saves with pruning, every remaining snapshot's keyframe exists and rebuilds the RAM of its save |
| Snapshots.NewestAreKept | verilator/main.cpp:2478-2482 | And those remaining are the newest, in order |
| SnapshotSaves.NewIsKeptIff | verilator/main.cpp:2478-2482 | A new snapshot, of any cycle, stays if and only if fewer than those kept sort after it |
| SnapshotSaves.OldIsKeptIff | verilator/main.cpp:2478-2482 | And one already there, if and only if fewer than those kept sort after it with the new one's name among them |
| SnapshotSaves.SaveRestoresIff | verilator/main.cpp:2437-2496 | After a save at any cycle, keeping any number, every snapshot left restores if and only if, in the store before: the keyframe that the new one leans on is there, unchanged where it has no page of its own, and a new keyframe equals the one of its name wherever a snapshot that stays and leans on that has no page of its own |
| SnapshotSaves.KeyframeStaysIff | verilator/main.cpp:2484-2495 | The keyframe that the next save may lean on is there if and only if the new snapshot stays or one that does uses it |
| SnapshotSaves.EverySaveGoodIff | verilator/main.cpp:2437-2496 | Over any run of saves at any cycles, every snapshot restores and the next save can lean on its keyframe throughout, if and only if every save meets those two conditions |
| SnapshotSaves.KeyframeOverwritten | verilator/cosim_host.cpp:567-580 | A new process saves at the cycle of a keyframe, and a snapshot that leans on it rebuilds another RAM |
| Snapshots.EarlierSaveBreaksNext | verilator/main.cpp:2478-2495 | A save at an earlier cycle leaves the next snapshot without its keyframe |
| SnapshotStore.Directory.SaveSnapshot | verilator/main.cpp:2437-2496 | The save, comparison and pruning, in place |
| SnapshotStore.Directory.Restore | verilator/cosim_host.cpp:606-630 | The restore rebuilds the RAM, and fails when the keyframe is gone |
| IoBus.EdgeStrobes | src/iobus_adapter.sv:99-289 | Every edge keeps the account of strobes, and no strobe follows another without a clock between |
| IoBus.ResetDropsAccess | src/iobus_adapter.sv:117-124 | Reset leaves no strobe up or owed and the next request is taken |
| IoBus.StrobesAreLanes | src/iobus_adapter.sv:99-289 | Over every run the strobes are the active lanes of the accesses taken, ascending, at their ports, with their bytes |
| IoBus.ReadyOncePerAccess | src/iobus_adapter.sv:265-286 | Every access taken is answered by exactly one ready |
| IoBus.HeldRequestIsIgnored | src/iobus_adapter.sv:134-139 | A request held after its ready is not taken again until a clock without one |
| IoBus.AccessRuns | src/iobus_adapter.sv:133-289 | An access takes a number of clocks fixed by its lanes, direction and waits, and answers with the bytes it read |
| IoBus.ReadAccess | src/iobus_adapter.sv:139-270 | A read's answer has each active lane's byte and FF in the others |
| IoBus.WriteAccess | src/iobus_adapter.sv:165-270 | A write takes two clocks an active lane, one for another, and one to answer |
| IoAccess.AccessStrobes | src/iobus_adapter.sv:86-261 | From a free adapter the strobes of an access are, for its active lanes in ascending order, a read or a write of the lane's byte at port 4 times the dword's number plus the lane |
| IoAccess.InputReadsPorts | src/iobus_adapter.sv:133-270 | With any peripherals that answer in their own time an input gives each active lane's port, and FF in the others |
| IoAccess.AnsweredOnce | src/iobus_adapter.sv:134-139 | Held on after its answer a request does nothing more; the first clock without it frees the adapter |
| IoAccess.AddressMoves | src/iobus_adapter.sv:98-115 | The address moves only with an access or a strobe |
| IoAccess.WideAccess | src/iobus_adapter.sv:92-288 | An access to port 1F0 or 170 with its first byte goes out whole on the IDE path, is held as long as asked, and answered one clock after, with nothing on the byte bus |
| IoAccess.NarrowAccess | src/iobus_adapter.sv:92-288 | And no other access does anything there |

## Left out

- The reference's opcodes, segmentation and x87: an instruction is any deterministic program of accesses; CS, EIP and the registers are functions of an abstract state.
- `split_string_store`, by which a split MOVSD or STOSD element is stored, and the silent writes recorded for a shift by 0: part of the abstract instruction.
- Interrupt delivery inside the reference: an interrupt is a step with its own stores.
- The x87 state check, its precision modes and the counter of adopted bytes; trace and watch output, history and reports.
- The `fpu` mark of z486's queued writes: nothing reads it.
- Checkpoints of the reference (`save_ex`, `load_ex`) and of the devices of the simulator program.
- Retries.RetriesEndAsOneStep: the stalled attempts report nothing, and the log holds all that each changed; otherwise `LogLimit.LastChangeKept` shows what happens.
- Stepper.Stepper.Step: a step of a frozen x87 (`x87_frozen`), 86Box's chunks of a REP string and `split_string_store` are inside the abstract instruction.
- IssueChecker.Checker.ProcessIssues: `check_x87` is not modelled.
- IssueMachine.IssuesCheckMemory: wherever the run undoes an instruction, the log holds all that it changed; a reset gives the reference z486's RAM at once, not at the first issue.
- Rollback.FaultsArePrecise: repeated strings and a probed ENTER keep their earlier stores by design and are in `Rollback.CompletedStepStores`, `Outcomes.StringsKeep` and `Outcomes.ProbeKeepsPushes`.
- Accesses.ReadAfterWrite: the bytes written are distinct bytes of RAM; `Accesses.StoreDoes` and `Accesses.ReadGives` have the others.
- RunTheorems.BytesAgree: DMA and walker writes are harmless; `UnequalRuns` has the others.
- UnequalRuns.HarmfulPokeShows: the outstanding addresses are below the BIOS alias, as every address a CPU puts on the bus is.
- UnequalRuns.AdoptionSafeIff: the outstanding addresses are below the BIOS alias.
- UnequalRuns.EventSafeIff: the outstanding addresses are below the BIOS alias.
- IdeWrites.WriteThenRead: the commands in between are reads and writes of sectors.
- OmittedTheorems.OmissionsPassIff: checking is strict; z486's writes come labelled with the instruction and whether they change their byte.
- FlagAdoption.Register.AdoptFlags: the two halves of the flag word are two sets; the bit positions are not modelled.
- Two IDE channels and the floppy sharing one management bus: one `HpsIde` has its own bus.
- The contents of IDENTIFY, INQUIRY, READ TOC, READ SUB-CHANNEL, MODE SENSE and GET CONFIGURATION: parameters of the model.
- IdeLayout.LayoutIs: the differing sectors, one after the other, are in `IdeImages.ImageRoundTrip` only.
- Opening an image and `adopt_image_path`: a device is constructed on its contents. Debug output.
- Jitter's generator: the delays are arbitrary numbers below 64.
- IdeCheckpoint.CheckpointRoundTrip: loading versions 1 and 2, and what a truncated or damaged stream leaves in the fields, are not modelled; a negative step counter cannot be saved.
- Files are byte sequences; compression, directories and metadata of snapshots other than names and keys are not modelled.
- IoBus.AccessRuns: the adapter's registers are one value that each edge replaces, not fields updated in place.
- The parts of the system whose files are not part of this model: the main memory, the video and the sound hardware.
