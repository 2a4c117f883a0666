# A verified model of libdebug's core

libdebug drives a traced process through ptrace. This project models the parts whose correctness is a
property of whole runs and proves those properties in Dafny. The kernel is replaced by a small abstract
machine: byte memory read and written in 8-byte words, one program counter and register file, the debug
registers DR0 to DR3 and DR7, and the statuses a wait reports. User callbacks are arbitrary functions,
except where a statement says that a hijack is to a fixed number.

One module per component:

- `Words`, `SoftwareBreakpoints`, `Transparency`: the breakpoint list of the C layer, the patching and
  restoring loops over overlapping words, and the run of a thread under them against its native run.
- `UserSessions`: the same comparison for a session of edits to the Python breakpoint table.
- `CommandQueues`: the main thread and the polling thread, step by step, over the two queues.
- `HijackChains`, `Syscalls`, `SyscallThreads`, `Signals`: following hijacks, pairing the system call stops
  of one thread and of several, counting hits, and what a continue delivers.
- `DebugRegisters`, `ControlWord`, `HardwareAgreement`: the four slots of one thread in DR7, the mask
  arithmetic behind them, and all threads against the breakpoint table.
- `TwoLayers`: the Python breakpoint table against the C list.
- `FinishStepping`: step-mode `finish` against the call depth.
- `ThreadRegistry`: live and dead nodes of the C layer against the Python thread contexts.
- `MemoryAccess`, `SymbolNames`, `HexNumbers`: word-granular memory access; `symbol+offset` printed and
  parsed, and the hexadecimal numbers in it.
- `Options`, `Searches`: a value that may be missing, and the first element with a property.

Code that updates its state in place is a class or a method with loops, and each such method is proved
equal to a function of the old state; the theorems are about those functions. Every lemma carries
`{:induction false}`, so no proof depends on automatic induction.

Where a promise does not hold for every input, the model keeps what the code does, and the statement says
exactly when the promise holds. The findings of this kind:

- A breakpoint registered while a neighbour's trap is in its next seven bytes records that trap, although
  the list is kept in ascending order so that no breakpoint patches another
  (`SoftwareBreakpoints.RegistrationSafeIffPermitted`, `SoftwareBreakpoints.DescendingRegistrationFails`).
  It is harmless only while nothing is disabled or removed (`SoftwareBreakpoints.OverlapSafety`).
- Removing a breakpoint whose trap is in memory leaves the trap there
  (`SoftwareBreakpoints.RemovalSafeIff`, `SoftwareBreakpoints.RemovedTrapStays`).
- The stop at a software breakpoint reports the breakpoint one byte after it, software or hardware, if that
  is enabled, and the instruction is skipped (`Transparency.ContinueRefines`, `Transparency.NeighbourStops`);
  a breakpoint set at the current address is stepped as a trap (`Transparency.StepOverNativeIff`,
  `Transparency.TrapSteppedOver`).
- A command that answers while another is queued behind it blocks both threads; a failed `step` does this
  (`CommandQueues.NoDeadlockIffOrderly`, `CommandQueues.FailedStepDeadlocks`), and so can every call that puts
  two commands before a join, `run` with the anti-debugging handler among them, and no other that is begun with
  nothing outstanding (`CommandQueues.CallSafeIff`, `CommandQueues.RunSafeIff`). A command put while a
  response is undrained blocks them too: `kill`, when the interrupt it makes first raises, and `terminate` put theirs without
  joining, and block if the wait that `cont` left behind has failed or fails meanwhile
  (`CommandQueues.UnjoinedSafeIff`, `CommandQueues.FailedWaitThenKillDeadlocks`).
- After a hijacking loop is reported, the exit of the system call is taken for an entry
  (`Syscalls.LoopErrorUnpairs`); with two threads in one system call the second entry is taken for an exit
  (`Syscalls.TwoThreadsShareFlags`). With several threads all stops are taken for what they are exactly when no
  entry, after its hijacks included, finds another thread inside a call whose handler does something
  (`SyscallThreads.RunRightIff`).
- A handler without user callbacks that is reached by a hijack that is not recursive stops the process at the
  exit of the call but not at its entry (`Syscalls.CallStopsIff`).
- A signal that a breakpoint's callback assigns is replaced by the trap signal, which is then delivered,
  unless the chain of the trap ends in the assigned number (`Signals.AssignedSignalDeliveredIff`,
  `Signals.SignalSetAtBreakpointIsLost`).
- The documented conditions "X", "W" and "RW" are accepted in upper case by the caller and then missing
  from the manager's table: the installation fails after the address register has been written
  (`DebugRegisters.InstallEffect`).
- A disabled hardware breakpoint cannot be deleted and is installed in every new thread; enabling one that
  is enabled takes a second slot in every thread (`HardwareAgreement.UnsetAgrees`,
  `HardwareAgreement.BirthAgreesIff`, `HardwareAgreement.DisabledAtBirth`, `HardwareAgreement.SyncAgreesIff`,
  `HardwareAgreement.EnabledTwice`). What gdb leaves in a slot that the re-installation does not write stays
  enabled (`HardwareAgreement.GdbRestoresIff`, `HardwareAgreement.GdbLeavesOne`).
- `finish` towards a disabled software breakpoint enables it in the C layer only
  (`TwoLayers.FinishLinksIff`); an exception from a hardware breakpoint during `cont` loses the changes
  that come after it (`TwoLayers.ContLinksIff`, `TwoLayers.RefusedChangeUnlinks`).
- Step-mode `finish` does not look at its first instruction, nor at its second when it starts on a
  breakpoint, and does not know calls and returns with a prefix byte. When it comes back, it is at the right
  place exactly when the depth was never below the start before and the calls missed, with what the
  instructions not looked at did, make up for the returns missed (`FinishStepping.FinishReturnsIff`); a missed
  call alone ends it too early and a missed return alone too late (`FinishStepping.PrefixedCallEndsEarly`,
  `FinishStepping.MissedReturnsOvershoot`), and the two together can cancel out
  (`FinishStepping.MissesCancel`).
- When a thread number is reused, the exit of the second thread marks the first one's context
  (`ThreadRegistry.ExitTidyIff`, `ThreadRegistry.ReusedNumberLeavesZombie`).
- A failed memory write raises nothing, because the kernel's -1 arrives unsigned
  (`MemoryAccess.MemoryView.Setter`, `MemoryAccess.MemoryView.Write`); a mapped range cannot be read when
  the word of its last bytes crosses the end of the mapping (`MemoryAccess.MemoryView.Read`).
- A printed symbol is parsed back to its address only if its name has no '+' and the first file with that
  name is the one it came from (`SymbolNames.RoundTripIff`, `SymbolNames.PlusInNameFails`,
  `SymbolNames.RepeatedNameFails`).

## Model

| member | source | states |
|---|---|---|
| Words.LoadStore | libdebug/debugger/internal_debugger.py:1296-1303 | a 64-bit value survives being stored as eight little-endian bytes and loaded |
| Words.StoreLoad | libdebug/debugger/internal_debugger.py:1296-1303 | eight bytes survive being loaded as a value and stored |
| Words.InstallTrapsFirstByte | libdebug/cffi/ptrace_cffi_build.py:45-50 | the mask that installs a breakpoint in a word's value sets its first byte in memory to the trap opcode and no other byte |
| Words.PatchedWord | libdebug/cffi/ptrace_cffi_source.c:488-490 | the value arithmetic on a peeked word changes exactly its first byte in memory, to the trap opcode |
| SoftwareBreakpoints.FlushByte | libdebug/cffi/ptrace_cffi_source.c:372-380 | after a patching or restoring loop each byte is the one of the last enabled node whose word covers it, or untouched |
| SoftwareBreakpoints.ArmedWritesItself | libdebug/cffi/ptrace_cffi_source.c:510-527 | in ascending order no other node's word is written over the first byte of an enabled node's |
| SoftwareBreakpoints.OverlapSafety | libdebug/cffi/ptrace_cffi_source.c:484-528 | for registrations in any order and at any distance, with resumes and stops between, the next resume traps exactly the listed addresses and the next stop gives the original memory back, even where a recorded word holds a neighbour's trap |
| SoftwareBreakpoints.CleanStep | libdebug/cffi/ptrace_cffi_source.c:484-584 | every permitted event keeps the list strictly sorted, the recorded words the program's own, and memory different from the original only by traps at enabled listed addresses |
| SoftwareBreakpoints.PermittedRunsRestore | libdebug/cffi/ptrace_cffi_source.c:403-471 | after every permitted run of register, unregister, enable, disable, resume and stop, a stop gives the original memory and a resume traps exactly the enabled addresses |
| SoftwareBreakpoints.RegistrationSafeIffPermitted | libdebug/cffi/ptrace_cffi_source.c:484-509 | a new breakpoint is safe against every later enabling and disabling if and only if its next seven bytes hold no trap |
| SoftwareBreakpoints.UncleanRecordBreaks | libdebug/cffi/ptrace_cffi_source.c:568-584 | a word recorded with a foreign byte can be driven, by disabling the others, to a stop that leaves that byte in memory |
| SoftwareBreakpoints.RemovalSafeIff | libdebug/cffi/ptrace_cffi_source.c:530-548 | after a removal the next stop gives the original memory if and only if the trap was not in memory or an enabled breakpoint in the seven bytes below covers it |
| SoftwareBreakpoints.RemovedTrapStays | libdebug/cffi/ptrace_cffi_source.c:530-548 | an instance of that condition failing: set at 5 and removed before the next stop, the breakpoint leaves its trap |
| SoftwareBreakpoints.DescendingRegistrationFails | libdebug/cffi/ptrace_cffi_source.c:484-528 | breakpoints at 5 and then 3 with no stop between: some disabling leaves a trap behind |
| SoftwareBreakpoints.GlobalState.RegisterBreakpoint | libdebug/cffi/ptrace_cffi_source.c:484-528 | the loops over the list keep it sorted and make the state step that the run theorems are about: trap at once, then re-enable or insert in order |
| SoftwareBreakpoints.GlobalState.FindPosition | libdebug/cffi/ptrace_cffi_source.c:510-527 | the walk finds the place that keeps ascending order for an address not yet listed |
| SoftwareBreakpoints.WriteEnabled | libdebug/cffi/ptrace_cffi_source.c:372-380 | the loop over the enabled nodes gives the memory whose bytes `FlushByte` describes |
| SoftwareBreakpoints.GlobalState.UnregisterBreakpoint | libdebug/cffi/ptrace_cffi_source.c:530-548 | the list stays sorted without the node, and memory, trap included, is not touched |
| SoftwareBreakpoints.GlobalState.EnableBreakpoint | libdebug/cffi/ptrace_cffi_source.c:550-566 | the list stays sorted, one flag is set, and the patched word is in memory at once; nothing happens for an address not listed |
| SoftwareBreakpoints.GlobalState.DisableBreakpoint | libdebug/cffi/ptrace_cffi_source.c:568-584 | the list stays sorted, one flag is cleared, and the recorded word is in memory at once; nothing happens for an address not listed |
| SoftwareBreakpoints.GlobalState.PatchAll | libdebug/cffi/ptrace_cffi_source.c:372-380 | the loop gives the memory that the theorems show to trap exactly the enabled addresses |
| SoftwareBreakpoints.GlobalState.RestoreAll | libdebug/cffi/ptrace_cffi_source.c:460-468 | the loop gives the memory that the theorems show to be the original |
| Transparency.RunRefines | libdebug/cffi/ptrace_cffi_source.c:385-401 | while the native run meets no enabled address, the run on patched memory has not trapped and is the native run with traps in it |
| Transparency.PrepareRefines | libdebug/cffi/ptrace_cffi_source.c:322-383 | stepping over a listed address and re-patching gives the native state after that step, patched |
| Transparency.TrapRefines | libdebug/ptrace/ptrace_status_handler.py:76-101 | at an enabled breakpoint of the table the thread is halted, by a trap if it is a software one, and the stop is the native state if and only if it is not a software one with an enabled breakpoint of either kind one byte further |
| Transparency.FreeRunRefines | libdebug/cffi/ptrace_cffi_source.c:385-401 | after the preparation the thread follows the native run up to the next enabled breakpoint of the table, with no trap before it, and passes no hardware breakpoint but, under the resume flag, the one it stands on |
| Transparency.ContinueRefines | libdebug/cffi/ptrace_cffi_source.c:322-471 | one continue stops in exactly the native state at the next enabled breakpoint reached, software or hardware, in memory without traps, if and only if it is not a software one with an enabled one of either kind a byte after it; a hardware one set where the thread is stops it at once, one that has just stopped it does not |
| Transparency.SessionRefines | libdebug/cffi/ptrace_cffi_source.c:322-471 | over a whole session of edits and continues, with the resume flag carried from stop to stop, the sequence of stops is the sequence of native states at the enabled breakpoints reached |
| Transparency.NeighbourStops | libdebug/ptrace/ptrace_status_handler.py:76-101 | an instance of that condition failing: breakpoints at 3 and 4 on one-byte instructions |
| Transparency.StepOverNativeIff | libdebug/cffi/ptrace_cffi_source.c:354-368 | stepping over the current address is native if and only if no trap is already there or the instruction only moves one byte on |
| Transparency.SingleStepNativeIff | libdebug/ptrace/ptrace_interface.py:259-274 | a `step` ends one native instruction on, whatever breakpoints are enabled, exactly when no trap stood at the address or the instruction only moves one byte on; a hardware breakpoint just set there holds it back |
| Transparency.OtherTrapStays | libdebug/ptrace/ptrace_status_handler.py:78-101 | a trap with no enabled breakpoint at the reported address or the one below leaves the instruction pointer |
| Transparency.TrapSteppedOver | libdebug/cffi/ptrace_cffi_source.c:354-368 | an instance of that condition failing: a two-byte instruction at the address just trapped |
| Transparency.Tracee.ContinueAndWait | libdebug/cffi/ptrace_cffi_source.c:385-471 | continuing ends, in the native state exactly when the breakpoint hit is not a software one with an enabled one of either kind a byte after it, and with the resume flag set exactly when a hardware one was hit |
| Transparency.Tracee.PrepareForRun | libdebug/cffi/ptrace_cffi_source.c:322-383 | the list search, the step and the patching loop give the prepared state that refines the native one |
| Transparency.Tracee.OnBreakpoint | libdebug/cffi/ptrace_cffi_source.c:343-352 | the search finds the thread's address exactly when it is listed, enabled or not |
| Transparency.Tracee.StopAfterTrap | libdebug/ptrace/ptrace_status_handler.py:76-101 | the restoring loop and the look into the table give the stop that is the native state exactly as stated by `TrapRefines` |
| UserSessions.VisitRefines | libdebug/ptrace/ptrace_interface.py:222-257 | edits to the table and a continue, fair in terms of the table alone, are a fair round of the two layers: the thread is then in exactly the native state at the next breakpoint that the table shows enabled, and both layers are ready for the next visit |
| UserSessions.UserSessionRefines | libdebug/ptrace/ptrace_interface.py:222-257 | over a whole session of setting, toggling, deleting and continuing, the stops are the native states at the breakpoints the user sees enabled |
| CommandQueues.StepKeepsGood | libdebug/debugger/internal_debugger.py:1127-1163 | every step of either thread keeps the invariant, unless a command answers with another queued behind it or a call puts one while a response is undrained, which dooms the state |
| CommandQueues.GoodIsSafe | libdebug/debugger/internal_debugger.py:1153-1163 | at most one response queued; unfinished commands are those queued and in flight; a response is visible once the join has returned; responses are delivered in order, once, and all before the next command is taken; a peek takes its own; between calls only the wait that `cont` leaves behind is unjoined |
| CommandQueues.QueuesSafe | libdebug/debugger/internal_debugger.py:1306-1333 | those properties in every state of every orderly interleaving of calls, among them that a value returned by a peek is that peek's |
| CommandQueues.RunKeepsGood | libdebug/debugger/internal_debugger.py:1213-1247 | every run ends in a good state if it was orderly and in a doomed one otherwise |
| CommandQueues.RunningIff | libdebug/debugger/internal_debugger.py:1183-1247 | in every run the process counts as running exactly when a continue was executed or a step succeeded, or it was running from the start, and no wait, run, attachment, detachment or finish has succeeded and no run has begun since |
| CommandQueues.ContinueThenWaitStops | libdebug/debugger/internal_debugger.py:313-358 | however the threads interleave, a continue and a wait in which nothing fails leave the process stopped, both queues empty and the polling thread waiting |
| CommandQueues.ResponsesAnswer | libdebug/debugger/internal_debugger.py:1127-1163 | every response under way comes from a step that executed its command: a value from a read that succeeded, an exception from a command that failed |
| CommandQueues.PeekReturnsItsOwn | libdebug/debugger/internal_debugger.py:1306-1333 | what a read of memory takes is what the execution of its own command gave, a value exactly if it succeeded |
| CommandQueues.NoDeadlockIffOrderly | libdebug/debugger/internal_debugger.py:1127-1163 | a run ends in a state from which the call in progress can go on if and only if no command that answers had another queued behind it and nothing was put while a response was undrained; otherwise no continuation leaves the doomed states |
| CommandQueues.JammedIffStuck | libdebug/debugger/internal_debugger.py:1145-1156 | a doomed state has no next step exactly when one thread joins the commands and the other the responses |
| CommandQueues.CallsReturn | libdebug/debugger/internal_debugger.py:313-323 | in an orderly run the calls begun return after a bounded number of steps |
| CommandQueues.ApiCallsLegal | libdebug/debugger/internal_debugger.py:1114-1122 | every method, whatever its checks for a stopped process find, makes one of the calls the theorems are about |
| CommandQueues.StopBatchesAre | libdebug/debugger/internal_debugger.py:1114-1122 | making sure that a running process is stopped joins before it puts anything, and puts nothing but the wait of an interrupt that has to wait again |
| CommandQueues.ApiCallsEnabled | libdebug/debugger/internal_debugger.py:282-323 | and between calls the machine makes it, with a process or, but for continuing and reading memory, without one |
| CommandQueues.PendingIsRaised | libdebug/debugger/internal_debugger.py:1153-1163 | a response left between calls is the next one delivered, to the caller of the next call that joins, before that call is over |
| CommandQueues.SingleCallsAreOrderly | libdebug/debugger/internal_debugger.py:343-358 | runs of harmless calls never deadlock, whatever fails |
| CommandQueues.CallSafeIff | libdebug/debugger/internal_debugger.py:1127-1163 | a call begun in any good state is safe, whatever fails and however the threads interleave, if and only if it is harmless there: with a response pending it puts nothing before it joins; otherwise no batch has two commands and it puts before it joins only with nothing outstanding |
| CommandQueues.SettledCallSafeIff | libdebug/debugger/internal_debugger.py:786-795 | with nothing outstanding: if and only if no batch has two commands |
| CommandQueues.RunSafeIff | libdebug/debugger/internal_debugger.py:214-247 | a run of a new process is safe, whatever fails, if and only if the anti-debugging handler is not queued behind it |
| CommandQueues.FailedStepDeadlocks | libdebug/debugger/internal_debugger.py:786-795 | from any idle state of a stopped process, a `step` whose first command fails leads to a jam |
| CommandQueues.UnjoinedSafeIff | libdebug/debugger/internal_debugger.py:282-309 | a kill whose interrupt raised, and terminating, are safe whatever happens next if and only if the wait that `cont` left behind has been joined and its exception raised |
| CommandQueues.UnjoinedDeadlocks | libdebug/debugger/internal_debugger.py:282-309 | begun while a response is undrained, such a call blocks both threads with its first command |
| CommandQueues.FailedWaitThenKillDeadlocks | libdebug/debugger/internal_debugger.py:313-341 | from any idle state of a stopped process, a continue whose wait fails and then such a kill lead to a jam |
| HijackChains.EachCallbackAtMostOnce | libdebug/ptrace/ptrace_status_handler.py:142-171 | whatever the callbacks do, the walk ends and runs each active handler's callback at most once |
| HijackChains.LoopIffEndless | libdebug/ptrace/ptrace_status_handler.py:142-171 | for fixed hijacks a loop is reported if and only if following the enabled recursive hijacks never ends |
| HijackChains.WalkEnds | libdebug/ptrace/ptrace_status_handler.py:128-197 | where a walk without a loop ends, and that it ran one callback that left the number, exactly when it ends on that handler's own number |
| HijackChains.WalkFollows | libdebug/ptrace/ptrace_status_handler.py:262-311 | the whole walk from the callbacks alone: each callback that runs hands the number on to the next, the last one's number is left, and it is a loop exactly when that number's callback has run |
| HijackChains.FollowTouched | libdebug/ptrace/ptrace_status_handler.py:262-311 | the number counts as assigned exactly when some callback that ran assigned it |
| Syscalls.StepPairs | libdebug/ptrace/ptrace_status_handler.py:119-260 | each legal event keeps the pairing of the flags with being inside a system call |
| Syscalls.RunsPair | libdebug/ptrace/ptrace_status_handler.py:119-260 | in every run, outside a system call no handler has a flag set and inside one only the handler of the final number may |
| Syscalls.ExitIsExit | libdebug/ptrace/ptrace_status_handler.py:199-260 | so every exit stop of a handler that does anything is taken for an exit |
| Syscalls.CallStopsIff | libdebug/ptrace/ptrace_status_handler.py:119-260 | in every legal run: the process stays stopped at the entry of a call exactly when its final handler is enabled without a user callback and was not reached by a hijack that is not recursive, and at the exit exactly when it is enabled without one; the exit callback runs exactly when it is set, enabled and not so reached; the entry leaves its flag exactly when the handler does something or was so reached |
| Syscalls.ToggleDecides | libdebug/data/syscall_handler.py:52-62 | after enabling or disabling, the enter callback runs at the next entry exactly when there is one and the handler was enabled |
| Syscalls.StepCounts | libdebug/ptrace/ptrace_status_handler.py:230-257 | one event changes hits plus calls in progress by the enter callbacks that left the number |
| Syscalls.HitsCountKeptCalls | libdebug/ptrace/ptrace_status_handler.py:128-257 | over a run, hits are the calls of the enter callback that left the number, less the one still inside; calls reached by a hijack that is not recursive count for neither |
| Syscalls.LoopErrorUnpairs | libdebug/ptrace/ptrace_status_handler.py:156-163 | after a loop error the exit stop runs an enter callback again |
| Syscalls.TwoThreadsShareFlags | libdebug/data/syscall_handler.py:49-50 | while one thread is inside a call, another's entry into it is taken for the exit, and the first one's exit for an entry |
| SyscallThreads.ApartRunsAreRight | libdebug/ptrace/ptrace_status_handler.py:119-260 | for any number of threads, every stop is taken for what it is as long as no two are inside one call whose handler does something |
| SyscallThreads.RunRightIff | libdebug/ptrace/ptrace_status_handler.py:119-260 | all stops of a run, and those at which the threads inside may then leave, are taken for what they are if and only if every entry finds nobody inside the call it starts at nor the one it ends at, unless their handlers do nothing |
| SyscallThreads.TogglingDecides | libdebug/data/syscall_handler.py:52-62 | enabling and disabling change one handler, as they do for one thread |
| SyscallThreads.StaysBroken | libdebug/ptrace/ptrace_status_handler.py:213-260 | once two threads are inside one such call, or one is while the flag is clear, no stop taken for what it is sets it right |
| SyscallThreads.SecondExitWrong | libdebug/ptrace/ptrace_status_handler.py:213-260 | two threads inside one call: when both leave, the second exit is taken for an entry |
| Syscalls.SyscallLoopIffEndless | libdebug/ptrace/ptrace_status_handler.py:153-161 | for fixed hijacks the loop error is exact: at the entry of a handled call whose recursive hijacks never end |
| Syscalls.Dispatcher.OnEnter | libdebug/ptrace/ptrace_status_handler.py:119-197 | the recursive enter path computes the walk and sets the flags it leaves |
| Syscalls.Dispatcher.EnterWithoutCallback | libdebug/ptrace/ptrace_status_handler.py:187-197 | the rest of the enter path for a handler whose user callback does not run |
| Syscalls.Dispatcher.HandleSyscall | libdebug/ptrace/ptrace_status_handler.py:199-260 | a stop is an entry or an exit by the handler's flag; handlers, number, exit callback, loop report and whether the process stays stopped are those that `CallStopsIff` is about |
| Signals.StatusesReflected | libdebug/ptrace/ptrace_status_handler.py:387-436 | with one status per thread, each thread's number and mark are those of its own status and the others' are untouched |
| Signals.CycleDelivers | libdebug/ptrace/ptrace_interface.py:222-257 | when no hijacking loop is met, the next continue delivers to a thread the last signal the user gave it; or else the last number of its chain, exactly when the debugger does not claim the signal and it is not SIGSTOP, or a callback assigned a number; if non-zero and unblocked, else nothing; a delivered number is cleared, and the continue after that delivers nothing |
| Signals.MarksIffPassedAlong | libdebug/ptrace/ptrace_status_handler.py:387-415 | a thread is marked exactly when its signal is unclaimed and not SIGSTOP, the debugger's own callback assigned one, or some callback of the chain did |
| Signals.HitsAndStops | libdebug/ptrace/ptrace_status_handler.py:262-320 | over the statuses of a wait each enabled catcher counts one hit for every status that consults it and a disabled one none; the process stays stopped exactly when it was to or some status ends at an enabled catcher without a callback |
| Signals.AssignedSignalDeliveredIff | libdebug/ptrace/ptrace_status_handler.py:387-415 | a signal that a callback of the debugger's own stop assigns is delivered if and only if the chain of the signal that stopped the thread ends in that number and it is not blocked |
| Signals.SignalSetAtBreakpointIsLost | libdebug/ptrace/ptrace_status_handler.py:402-415 | a signal assigned by a breakpoint's callback is overwritten, and the trap is delivered |
| Signals.SignalLoopIffEndless | libdebug/debugger/internal_debugger.py:533-537 | for fixed signal hijacks a loop is reported exactly for a caught signal whose recursive hijacks never end |
| Signals.SignalHandler.ManageCaughtSignal | libdebug/ptrace/ptrace_status_handler.py:262-311 | the recursion computes the walk, counts one hit for each enabled catcher on it, and stops the process at one without a callback |
| Signals.SignalHandler.HandleSignal | libdebug/ptrace/ptrace_status_handler.py:313-320 | a signal that is not caught stays as it is |
| Signals.SignalHandler.HandleChange | libdebug/ptrace/ptrace_status_handler.py:387-415 | one status sets the thread's number and mark as `CycleDelivers` and `HitsAndStops` say, also when a loop is reported; an error is raised exactly on a loop |
| Signals.SignalHandler.ManageChange | libdebug/ptrace/ptrace_status_handler.py:429-442 | all statuses in turn, up to and with the first whose chain loops |
| Signals.SignalHandler.SetSignal | libdebug/state/thread_context.py:164-175 | the assignment that `CycleDelivers` speaks of |
| Signals.SignalHandler.ForwardSignals | libdebug/ptrace/ptrace_interface.py:416-439 | each marked thread's unblocked signal goes to its node, and no mark is left |
| Signals.SignalHandler.Cont | libdebug/cffi/ptrace_cffi_source.c:385-401 | what each thread is continued with, and that nothing is left to forward |
| DebugRegisters.InstallEffect | libdebug/architectures/amd64/amd64_ptrace_hw_bp_helper.py:67-104 | fails exactly when all slots are held or a key is unknown; otherwise the first empty slot decodes to the breakpoint and every other slot and bit is unchanged |
| DebugRegisters.RemoveEffect | libdebug/architectures/amd64/amd64_ptrace_hw_bp_helper.py:106-136 | fails exactly when no slot holds the breakpoint; otherwise one slot is emptied and every other slot and bit is unchanged |
| DebugRegisters.ReadCodes | libdebug/architectures/amd64/amd64_ptrace_hw_bp_helper.py:35-37 | the condition and length codes are read back as they are written |
| DebugRegisters.StepRefines | libdebug/architectures/amd64/amd64_ptrace_hw_bp_helper.py:67-136 | each operation on the registers is the operation on a bag of at most four breakpoints, with the same result |
| DebugRegisters.RunRefines | libdebug/architectures/amd64/amd64_ptrace_hw_bp_helper.py:67-136 | after any sequence, failures included, the enabled slots decode to exactly the bag, and the count is its size and at most 4 |
| DebugRegisters.FreshValid | libdebug/architectures/amd64/amd64_ptrace_hw_bp_helper.py:52-65 | a new manager over DR7 = 0 satisfies the invariant |
| ControlWord.InstalledBits | libdebug/architectures/amd64/amd64_ptrace_hw_bp_helper.py:80-96 | the shifts, complements and disjunctions on the number in DR7 do to its one bits what the model of installing does |
| ControlWord.InstalledRegister | libdebug/architectures/amd64/amd64_ptrace_hw_bp_helper.py:33-37 | DR7 after an installation bit by bit: bit 2i set, condition in bits 16+4i and 17+4i, length in 18+4i and 19+4i, all others as before |
| ControlWord.RemovedBits | libdebug/architectures/amd64/amd64_ptrace_hw_bp_helper.py:122-128 | the same for removing |
| ControlWord.RemovedRegister | libdebug/architectures/amd64/amd64_ptrace_hw_bp_helper.py:33-33 | a removal clears bit 2i and no other |
| ControlWord.FieldBits | libdebug/architectures/amd64/amd64_ptrace_hw_bp_helper.py:34-37 | a two-bit field of the number is the field the model decodes |
| DebugRegisters.HardwareBreakpointManager.InstallBreakpoint | libdebug/architectures/amd64/amd64_ptrace_hw_bp_helper.py:67-104 | the scan and register writes refine the bag operation and keep registers and books in agreement |
| DebugRegisters.HardwareBreakpointManager.RemoveBreakpoint | libdebug/architectures/amd64/amd64_ptrace_hw_bp_helper.py:106-136 | the scan and register writes refine the bag operation and keep registers and books in agreement |
| DebugRegisters.HardwareBreakpointManager.AvailableBreakpoints | libdebug/architectures/amd64/amd64_ptrace_hw_bp_helper.py:138-140 | four less the enabled slots; positive exactly when a local enable bit is clear |
| HardwareAgreement.EachEffect | libdebug/ptrace/ptrace_interface.py:552-554 | an action with the same result on every manager runs on all of them or fails on the first and touches no other |
| HardwareAgreement.SetAgreesIff | libdebug/ptrace/ptrace_interface.py:545-561 | at capacity a set fails in the first manager and changes nothing; a successful one keeps the threads in agreement with the table if and only if no enabled hardware breakpoint had the address |
| HardwareAgreement.UnsetAgrees | libdebug/ptrace/ptrace_interface.py:563-579 | deleting succeeds exactly for an enabled breakpoint, and the agreement holds either way |
| HardwareAgreement.SyncAgreesIff | libdebug/ptrace/ptrace_interface.py:229-242 | applying a changed flag succeeds and keeps the agreement if and only if it flipped and, when set, a slot is free |
| HardwareAgreement.EnabledTwice | libdebug/ptrace/ptrace_interface.py:229-242 | an instance of that condition failing: enabling one that is enabled |
| HardwareAgreement.BirthAgreesIff | libdebug/ptrace/ptrace_interface.py:459-487 | a new thread joins without error and in agreement if and only if no breakpoint is disabled |
| HardwareAgreement.DisabledAtBirth | libdebug/ptrace/ptrace_interface.py:484-487 | an instance of that condition failing: one disabled breakpoint |
| HardwareAgreement.DeathAgrees | libdebug/ptrace/ptrace_interface.py:489-507 | after a thread's exit the others still agree with the table |
| HardwareAgreement.DeathDrops | libdebug/ptrace/ptrace_interface.py:489-507 | and no other thread's manager is dropped |
| HardwareAgreement.ReinstallEffect | libdebug/ptrace/ptrace_interface.py:455-457 | removing and installing succeeds whatever the registers hold, also with all slots held; the two slots written describe what the manager holds, and the others are left as they were |
| HardwareAgreement.GdbRestoresIff | libdebug/ptrace/ptrace_interface.py:445-457 | however gdb left the registers, re-installing succeeds, and every thread's registers describe the table again if and only if gdb left no slot enabled that the re-installation does not write, which the books alone determine |
| HardwareAgreement.GdbLeavesOne | libdebug/ptrace/ptrace_interface.py:445-457 | an instance of that condition failing: a slot left enabled with an empty table |
| HardwareAgreement.FreeSlotsClear | libdebug/ptrace/ptrace_interface.py:445-457 | that is so when gdb left no slot enabled that the managers take for empty |
| HardwareAgreement.ThreadsAgree | libdebug/ptrace/ptrace_interface.py:445-579 | over every legal run of sets, deletes, toggles, births, deaths and returns from gdb, all live threads' registers describe exactly the enabled hardware breakpoints of the table |
| HardwareAgreement.OneManagerEach | libdebug/ptrace/ptrace_interface.py:477-482 | over every legal run no thread number has two managers, however numbers are reused |
| HardwareAgreement.HardwareInterface.ForEachHelper | libdebug/ptrace/ptrace_interface.py:552-554 | the loop runs the action on the managers in order and stops at the first that fails |
| HardwareAgreement.HardwareInterface.SetBreakpoint | libdebug/ptrace/ptrace_interface.py:545-561 | a failure for want of a slot leaves everything as it was; afterwards the threads agree with the table unless an enabled breakpoint with the address was replaced |
| HardwareAgreement.HardwareInterface.UnsetBreakpoint | libdebug/ptrace/ptrace_interface.py:563-579 | the threads agree with the table whether the deletion succeeds or not |
| HardwareAgreement.HardwareInterface.RegisterNewThread | libdebug/ptrace/ptrace_interface.py:475-487 | the new thread joins without error and in agreement exactly when no breakpoint is disabled; its manager is registered also when installing fails, and replaces one with the same number |
| HardwareAgreement.HardwareInterface.UnregisterThread | libdebug/ptrace/ptrace_interface.py:506-507 | an error exactly for a thread without a manager; the remaining threads still agree with the table |
| HardwareAgreement.HardwareInterface.MigrateFromGdb | libdebug/ptrace/ptrace_interface.py:452-457 | the two nested loops end without error, and in agreement exactly when gdb left no slot enabled that they do not write |
| TwoLayers.SetLinksIff | libdebug/ptrace/ptrace_interface.py:545-561 | setting keeps the layers linked if and only if it does not put a hardware breakpoint over a software one; one that a manager refuses changes nothing |
| TwoLayers.ToggleLinks | libdebug/data/breakpoint.py:50-60 | toggling, from a callback or not, keeps the layers linked until the next continue |
| TwoLayers.ToggleEffect | libdebug/data/breakpoint.py:50-60 | enabling or disabling sets that row's flag to what was asked and marks the row; every other row and the C layer stay |
| TwoLayers.DeleteLinks | libdebug/ptrace/ptrace_interface.py:563-579 | deleting always keeps the layers linked, also when a manager refuses |
| TwoLayers.FinishLinksIff | libdebug/ptrace/ptrace_interface.py:324-349 | finishing towards a listed breakpoint keeps the layers linked if and only if it is enabled, hardware, or has a change pending |
| TwoLayers.ReachedAllIff | libdebug/ptrace/ptrace_interface.py:222-244 | `cont` applies all changed flags exactly when no change of a hardware breakpoint is refused, and otherwise stops at such a one |
| TwoLayers.ContLinksIff | libdebug/ptrace/ptrace_interface.py:229-242 | when no hardware change is refused, `cont` reaches the C layer with the same addresses and flags in both; after a refusal the layers stay linked if and only if each flag not reached was already the list's |
| TwoLayers.RefusedChangeUnlinks | libdebug/ptrace/ptrace_interface.py:222-244 | an instance of that condition failing: a disabling after a refused hardware change is lost |
| TwoLayers.RunsStayLinked | libdebug/ptrace/ptrace_interface.py:229-254 | every allowed run keeps the layers linked and the recorded words the program's |
| TwoLayers.ContinueTrapsWhatTheUserSees | libdebug/ptrace/ptrace_interface.py:229-254 | after any allowed run the memory the threads resume on is the program's with a trap exactly at the software breakpoints enabled in the table |
| TwoLayers.LastActionDecides | libdebug/ptrace/ptrace_interface.py:222-257 | after any allowed run, the last action about an address decides: the memory resumed on has a trap there if a software breakpoint was set or enabled, and the program's byte if a hardware one was set, or one was disabled or deleted; the table shows a hardware one enabled exactly if it was set or enabled |
| TwoLayers.PtraceInterface.SetBreakpoint | libdebug/ptrace/ptrace_interface.py:545-561 | fails exactly when a hardware breakpoint is refused; the layers stay linked unless a hardware breakpoint is put over a software one |
| TwoLayers.PtraceInterface.UnsetBreakpoint | libdebug/ptrace/ptrace_interface.py:563-579 | fails exactly when removing a hardware breakpoint is refused; the layers stay linked |
| TwoLayers.PtraceInterface.Enable | libdebug/data/breakpoint.py:50-54 | the row is enabled and marked, no other changes, and the layers stay linked |
| TwoLayers.PtraceInterface.Disable | libdebug/data/breakpoint.py:56-60 | the row is disabled and marked, no other changes, and the layers stay linked |
| TwoLayers.PtraceInterface.CollectChanged | libdebug/ptrace/ptrace_interface.py:229-236 | every changed breakpoint is collected once, in table order, and no mark is left |
| TwoLayers.PtraceInterface.ApplyChanged | libdebug/ptrace/ptrace_interface.py:238-242 | the C list gets the flags in order up to the first refusal, and success is reported exactly when there is none |
| TwoLayers.PtraceInterface.Synchronise | libdebug/ptrace/ptrace_interface.py:229-254 | without a refusal the layers agree at the call that resumes the threads |
| FinishStepping.CallEncodings | libdebug/cffi/ptrace_cffi_build.py:52-75 | a call is E8, or FF with 2 in the middle ModR/M field whatever the other two are; no call is a return or a trap |
| FinishStepping.ReturnEncodings | libdebug/cffi/ptrace_cffi_build.py:53-53 | returns are C2, C3, CA and CB, and nothing else is |
| FinishStepping.FinishReturnsIff | libdebug/cffi/ptrace_cffi_source.c:600-662 | when it comes back uninterrupted, the thread is just after the first return below the starting depth if and only if the depth was never below before and the calls missed, with what the uncounted instructions did, make up for the returns missed |
| FinishStepping.NeutralReturnsIff | libdebug/cffi/ptrace_cffi_source.c:600-662 | from a neutral start: if and only if as many calls as returns were missed and none of the latter took the depth below the start before |
| FinishStepping.MissedCallsEndEarly | libdebug/cffi/ptrace_cffi_source.c:600-662 | with no return missed: if and only if the start is neutral and every call passed is recognised |
| FinishStepping.NeutralStartIff | libdebug/cffi/ptrace_cffi_source.c:602-630 | neutral means: one instruction that neither calls nor returns, or two such, or a call and its return |
| FinishStepping.MissedReturnsOvershoot | libdebug/cffi/ptrace_cffi_source.c:600-662 | with a neutral start and no call missed, it comes back at that place if and only if it missed no return |
| FinishStepping.FinishExact | libdebug/cffi/ptrace_cffi_source.c:600-662 | with a neutral start and nothing to interrupt it, it comes back at that return and is still stepping before it |
| FinishStepping.PlainReturnsEnd | libdebug/cffi/ptrace_cffi_source.c:600-662 | an instance with the words of a call and two returns |
| FinishStepping.FinishInterrupted | libdebug/cffi/ptrace_cffi_source.c:641-645 | an interruption is at the first trap or unmoved instruction pointer, before the function has returned |
| FinishStepping.PrefixedCallEndsEarly | libdebug/cffi/ptrace_cffi_build.py:52-75 | an instance of that condition failing: a call with a prefix byte is not recognised, and finishing ends one level too deep |
| FinishStepping.MissesCancel | libdebug/cffi/ptrace_cffi_build.py:52-75 | an instance of it holding with misses: a prefixed call and its prefixed return |
| FinishStepping.IsCallInstruction | libdebug/cffi/ptrace_cffi_build.py:55-75 | the shifts and masks on the ModR/M byte decide exactly those encodings |
| FinishStepping.SteppingFinish | libdebug/cffi/ptrace_cffi_source.c:600-662 | the loop, with its stale instruction pointer after stepping over a breakpoint, has the outcome that the theorems relate to the call depth |
| ThreadRegistry.RegistryKept | libdebug/cffi/ptrace_cffi_source.c:52-93 | over every run, reused numbers included: one live node per thread, newest first; no node lost between the lists; no context's registers dangle; every live thread is found by the Python layer |
| ThreadRegistry.RegisterFinds | libdebug/ptrace/ptrace_interface.py:465-476 | a registration adds one context, not dead, that reads the thread's live node |
| ThreadRegistry.FirstThreadDetachedLast | libdebug/cffi/ptrace_cffi_source.c:129-187 | the first thread registered is last on the live list as long as it lives, and on the dead list afterwards |
| ThreadRegistry.DeadStaysDead | libdebug/cffi/ptrace_cffi_source.c:73-93 | a node that left the live list does not come back |
| ThreadRegistry.ForwardingEndsIff | libdebug/ptrace/ptrace_interface.py:416-439 | the forwarding loop ends if and only if there is a context for every marked live thread |
| ThreadRegistry.ForwardingEnds | libdebug/ptrace/ptrace_interface.py:416-439 | in every reachable state it ends, one pass per live thread |
| ThreadRegistry.ForwardedAre | libdebug/ptrace/ptrace_interface.py:416-439 | the contexts forwarded to are live ones of marked threads, and every marked live thread's is among them |
| ThreadRegistry.TidyLookup | libdebug/debugger/internal_debugger.py:982-995 | in a tidy state the context found for a live thread reads its own node's registers |
| ThreadRegistry.ExitTidyIff | libdebug/debugger/internal_debugger.py:962-980 | the exit of a live thread keeps things tidy if and only if the first context with its number is not dead |
| ThreadRegistry.FreshRunsTidy | libdebug/debugger/internal_debugger.py:951-995 | without reused numbers every run stays tidy |
| ThreadRegistry.ReusedNumberLeavesZombie | libdebug/debugger/internal_debugger.py:962-980 | a number used twice leaves a context that is not dead with no live thread |
| ThreadRegistry.Registry.RegisterNewThread | libdebug/ptrace/ptrace_interface.py:459-474 | keeps one live node per thread, all nodes, and a valid register pointer in the new context |
| ThreadRegistry.Registry.UnregisterNode | libdebug/cffi/ptrace_cffi_source.c:73-93 | one node moves from the live list to the front of the dead list and none is lost |
| ThreadRegistry.Registry.GetThreadById | libdebug/debugger/internal_debugger.py:982-995 | the first context with the number that is not dead |
| ThreadRegistry.Registry.SetThreadAsDead | libdebug/debugger/internal_debugger.py:962-980 | marks the first context with the number, dead or not, and no other |
| ThreadRegistry.Registry.HandleExit | libdebug/ptrace/ptrace_status_handler.py:57-64 | keeps the registry valid; nothing changes for a thread without a context that is not dead |
| ThreadRegistry.Registry.ContextsToForward | libdebug/ptrace/ptrace_interface.py:416-436 | the loop reaches the context of every marked live thread |
| MemoryAccess.ReadAfterWrite | libdebug/data/memory_view.py:50-123 | what was written is read back, and every other range reads as before |
| MemoryAccess.StoredAllIff | libdebug/data/memory_view.py:92-123 | a write stores everything if and only if all its words are mapped |
| MemoryAccess.WriteWhatWasRead | libdebug/data/memory_view.py:50-123 | writing back what was read changes nothing |
| MemoryAccess.DisjointWritesCommute | libdebug/data/memory_view.py:115-123 | writes to disjoint ranges commute although their words may overlap |
| MemoryAccess.AlignedAgreesIff | libdebug/data/memory_view.py:72-90 | the aligned read is the read if and only if the range takes at least the rest of its first word |
| MemoryAccess.AlignedReadsToTheEnd | libdebug/data/memory_view.py:72-90 | with 8-byte alignment a mapped range is read up to the end of the mapping |
| MemoryAccess.MemoryView.Getter | libdebug/debugger/internal_debugger.py:1296-1299 | one word as little-endian bytes, or an error if it is not mapped |
| MemoryAccess.MemoryView.Setter | libdebug/ptrace/ptrace_interface.py:628-639 | one word stored if mapped; no error otherwise |
| MemoryAccess.MemoryView.Read | libdebug/data/memory_view.py:60-71 | exactly the bytes of the range, or an error exactly when one of its words is not mapped |
| MemoryAccess.MemoryView.Write | libdebug/data/memory_view.py:92-123 | exactly the range changes, up to the mapped whole words, and an error is raised exactly when a last partial word is not mapped |
| MemoryAccess.MemoryView.AlignedRead | libdebug/data/memory_view.py:72-90 | what the aligned path computes, asking for aligned words only |
| HexNumbers.HexRoundTrip | libdebug/utils/elf_utils.py:188-189 | hexadecimal printed without prefix parses back and has no '+' |
| HexNumbers.HexDigit | libdebug/utils/elf_utils.py:188-189 | each printed digit is that of its power of sixteen, in small letters, without leading zeros |
| HexNumbers.FromHexWritten | libdebug/utils/debugging_utils.py:60 | a numeral with single underscores, with or without a prefix, a sign and blanks around it, is read as its number |
| HexNumbers.FromHexParts | libdebug/utils/debugging_utils.py:60 | and nothing else is read |
| HexNumbers.DigitsIff | libdebug/utils/debugging_utils.py:60 | numerals are digits of either case with single underscores between them |
| HexNumbers.DigitsAppend | libdebug/utils/debugging_utils.py:60 | one more digit adds to sixteen times the number |
| HexNumbers.ValueIs | libdebug/utils/debugging_utils.py:60 | digits are those of either case, by their place in the alphabet |
| HexNumbers.BlankIs | libdebug/utils/debugging_utils.py:60 | the ten ASCII characters that Python strips |
| SymbolNames.SplitPrinted | libdebug/utils/debugging_utils.py:56-60 | the split of a printed name and offset gives them back, or fails exactly when the name has a '+' |
| SymbolNames.SameFiles | libdebug/utils/debugging_utils.py:62-64 | printer and parser collect the same files in the same order at the same bases |
| SymbolNames.RangesAre | libdebug/utils/debugging_utils.py:95-105 | the files collected are those of the named maps, each once, from the start of its first map to the end of its last |
| SymbolNames.StartInFound | libdebug/utils/elf_utils.py:146-168 | a symbol is found exactly when some table has it, and at such an entry's start |
| SymbolNames.RoundTripIff | libdebug/utils/debugging_utils.py:41-119 | parsing what was printed gives the address back if and only if the name has no '+' and its first occurrence in the mapped files is at that symbol's start |
| SymbolNames.PlusInNameFails | libdebug/utils/debugging_utils.py:56-60 | an instance of that condition failing: `f+g` is printed and not parsed |
| SymbolNames.RepeatedNameFails | libdebug/utils/debugging_utils.py:62-79 | an instance of that condition failing: two symbols of one name in one file |
| SymbolNames.RoundTrip | libdebug/utils/debugging_utils.py:41-119 | so it does when no name is repeated with another address, in position-independent files and others |
| SymbolNames.ParseNameIs | libdebug/utils/debugging_utils.py:62-79 | a name is parsed as a symbol of that name in the first mapped file that has one, with the start of the file's first map added exactly for a position-independent file |
| SymbolNames.ParseUnknown | libdebug/utils/debugging_utils.py:76-79 | a name that no mapped file has is an error |
| SymbolNames.ParseOffset | libdebug/utils/debugging_utils.py:56-74 | an offset after the name is added |
| SymbolNames.PrintIs | libdebug/utils/debugging_utils.py:95-117 | an address is printed as name and offset of a symbol that covers it, less the start of the file's first map exactly for a position-independent file, in the first mapped file that spans it and has such a symbol |
| SymbolNames.PrintUnresolved | libdebug/utils/debugging_utils.py:119 | an address that no mapped file resolves is printed as "0x" and its digits |
| SymbolNames.SharedObject | libdebug/utils/debugging_utils.py:41-119 | an instance: a position-independent file mapped at 0x1000 with a symbol at 0x10 |
| SymbolNames.CollectRanges | libdebug/utils/debugging_utils.py:95-105 | the loop over the maps collects the files that `RangesAre` describes |
| SymbolNames.CollectBases | libdebug/utils/debugging_utils.py:62-64 | the loop over the maps collects the same files as the printer's, by `SameFiles` |
| SymbolNames.ResolveAddressInMaps | libdebug/utils/debugging_utils.py:82-119 | the first mapped file with a covering symbol gives the text; otherwise the bare address |
| SymbolNames.ResolveSymbolInMaps | libdebug/utils/debugging_utils.py:41-79 | the first mapped file with the symbol gives the address |

## Left out

- Linked lists in C are sequences here: allocation, freeing and aliasing of the breakpoint, status and thread nodes are not captured, except that thread nodes are numbered so that dangling register pointers can be excluded.
- ptrace, waitpid, tgkill, errno, spawning, ASLR: replaced by the abstract machine; failures of debug-register writes and of peeking or poking a breakpoint's word are not modelled.
- Transparency.SessionRefines: one thread; with several, each listed address under a thread is stepped in unpatched memory in the same way before the common patching loop.
- Transparency.ContinueRefines: between two stops the program must not execute a trap opcode of its own, read the byte of an enabled software breakpoint other than the one it is at, or write into the recorded word of any listed one, enabled or not; hardware watchpoints, which stop it on data accesses, are not modelled.
- CommandQueues.QueuesSafe: calls made from callbacks in the polling thread itself, and exceptions raised in the main thread between a put and its join, such as a keyboard interrupt, are not modelled.
- Syscalls.RunsPair: one thread; handlers change only outside a system call.
- SyscallThreads.RunRightIff: a handler changes only while no thread is inside its call, and entries that meet a hijacking loop are not among its runs.
- Signals.CycleDelivers: at most one status per thread and wait.
- DebugRegisters.RunRefines: DR6 and the attribution of watchpoint hits are not modelled.
- HardwareAgreement.GdbRestoresIff: threads that gdb's session created are not modelled, since registering them passes an argument too many (libdebug/ptrace/ptrace_status_handler.py:452).
- FinishStepping.SteppingFinish: the 32-bit counter is unbounded here, and the loop is followed for as many stops as the thread has made.
- MemoryAccess.MemoryView.Write: one contiguous mapping from address 0; the aligned write path, which the program never uses, is not modelled.
- SymbolNames.ResolveSymbolInMaps: digits and blanks outside ASCII, which Python also accepts in an offset, are not modelled; symbol resolution is not switched off.
- ELF and DWARF parsing, debuginfod and the remote system call table: the symbol tables are given.
- Pipes, logging, pretty printing, the gdb launcher, the stack unwinder, register sub-views, the debugger facade: input and output, heuristics, and thin wrappers.
- Fork and exec events, and single-stepping with a signal pending: outside the wait and continue cycle modelled here.
