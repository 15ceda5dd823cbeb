# yymicros task and process core, in Dafny

This project models the task and process core of the yymicros kernel, which offers a
Linux-compatible system-call layer. It covers five parts:

- **Task time accounting.** The per-task `TimeStat` accounts user and kernel time and
  runs the POSIX interval timer.
- **The task record.** `TaskInner` covers the id counter, the state and policy
  encodings, the construction defaults, the preemption counter and the CPU-affinity
  mask.
- **The futex wait table** and its cleanup, `clear_wait`.
- **The scheduler side tables.** These are the wait-for-exit queue map and the
  timer-list and wait-queue membership sets.
- **The system calls that validate arguments and edit process tables:**
  - `clone` (and `fork` and `vfork`), `wait4`, `nanosleep`, `execve`, `prlimit64`,
    `setsid`;
  - the `sched_*` affinity and policy calls;
  - the descriptor-table calls `dup`, `dup3`, `close`, `pipe2`, `fcntl64`;
  - the checks of `read`, `write`, `readv`/`writev`, `lseek`, `ftruncate64`,
    `renameat2` and `getcwd`;
  - `brk`, the argument checks of `mmap`, and the key and flag logic of `shmget` and
    `shmat`.

How the pieces map to Dafny:

- **Objects the kernel updates in place are classes.** These are `TimeStat`,
  `TaskInner`, the futex table, the scheduler tables, the descriptor table, file
  objects, processes, the registries and the shared-memory key map. Their methods'
  `modifies` clauses name the fields they change.
- **Pure decisions are functions.** Each class method is proved to reach the state that
  a specification function computes. The properties the kernel relies on are lemmas
  about those functions.
- **Panics are an outcome.** A panic in a system call (`unwrap` on `None`,
  `unimplemented!`, `expect`) is the outcome `Panic` of `SysResult`, not a
  precondition.
- **Integer widths are written out where they matter.** Arguments arrive as 64-bit
  words. The casts `as i32`, `as isize` and `as u32` are written out (`AsI32`,
  `AsIsize`, `% HALF_WORD`). Bit masks are `bv64`/`bv32`.

Collaborators outside the core become parameters that give their answer in the run
being modelled:

- the memory set (fault-in of user pointers, the free-area search, segment creation);
- file objects' reads and writes;
- `wait_pid`;
- `Process::exec`;
- the pending-signal check;
- the time slept.

Files:

| file | contents |
|---|---|
| common.dfy | `Option`, error numbers, `SysResult`, word-width casts |
| time_stat.dfy | `TimeStats` (specification) and `TimeStatObject` (the class) |
| task.dfy | `Tasks`: id counter, encodings, preempt counter, `set_cpu_set` mask, `TaskInner` |
| futex.dfy | `Futex`: waiter lists, `clear_wait` |
| schedule.dfy | `Schedule`: wait-for-exit map and membership sets |
| fd_table.dfy | `FdTables`: file objects, the descriptor table, `alloc_fd` |
| process.dfy | `Processes`: `Process`, the `PID2PC`/`TID2TASK` registries |
| io_syscalls.dfy, ctl_syscalls.dfy | the file-system calls |
| mem_syscalls.dfy | the memory calls |
| sched_syscalls.dfy, task_syscalls.dfy | the task calls |

## Model

| member | source | states |
|---|---|---|
| Common.AsIsize | api/linux_syscall_api/src/syscall_task/imp/schedule.rs:130 | `x as isize` of a usize: congruent to x modulo 2^64, in the isize range, negative exactly when bit 63 is set |
| Common.AsI32 | crates/taskctx/src/stat.rs:21-27 | `x as i32`: the low 32 bits read as a signed value |
| TimeStats.TimerTypeFrom | crates/taskctx/src/stat.rs:20-27 | only 0, 1 and 2 (of the i32 truncation) decode to a timer, and each decodes to the type with that code; all else is NONE |
| TimeStats.TimerSignal | crates/taskctx/src/stat.rs:185-190 | a signal exactly for a timer type other than NONE, and then SIGALRM, SIGVTALRM or SIGPROF (14, 26, 27) |
| TimeStats.TimerTypeRoundTrip | crates/taskctx/src/stat.rs:8-27 | every timer type round-trips through its code, NONE through -1 |
| TimeStats.InitialTimeState | crates/taskctx/src/stat.rs:61-76 | a fresh `TimeStat` has no time accounted and no timer armed |
| TimeStats.Reset | crates/taskctx/src/stat.rs:83-88 | output (0, 0), user timestamp 0, kernel timestamp set; timer fields untouched |
| TimeStats.UpdateTimer | crates/taskctx/src/stat.rs:159-171 | the three cases: expired is a no-op, more than delta left counts down, otherwise the signal becomes pending with remaining kept; accounting untouched |
| TimeStats.SwitchIntoKernelMode | crates/taskctx/src/stat.rs:90-98 | utime grows by now minus the user timestamp, stime unchanged, kernel timestamp is now; timer advances iff armed |
| TimeStats.SwitchIntoUserMode | crates/taskctx/src/stat.rs:100-109 | stime grows by now minus the kernel timestamp, utime unchanged, user timestamp is now; timer advances only for REAL or PROF |
| TimeStats.SwitchFromOldTask | crates/taskctx/src/stat.rs:111-121 | as SwitchIntoUserMode, but the kernel timestamp becomes now |
| TimeStats.SwitchToNewTask | crates/taskctx/src/stat.rs:123-133 | only the kernel timestamp moves; the timer advances only for REAL |
| TimeStats.SetTimer | crates/taskctx/src/stat.rs:145-156 | arms the decoded type, clears pending, accounting untouched; reports true iff the type code is 0, 1 or 2 |
| TimeStats.CheckPendingTimerSignal | crates/taskctx/src/stat.rs:180-194 | when pending: clears it, rearms with the interval, returns the type's signal (14/26/27); otherwise changes nothing and returns None |
| TimeStats.SetTimerThenOutput | crates/taskctx/src/stat.rs:138-156 | after set_timer(i, r, t), output_timer_as_us is (i/1000, r/1000) and no signal is pending |
| TimeStats.CheckPendingOnce | crates/taskctx/src/stat.rs:180-194 | two consecutive checks never both return a signal |
| TimeStats.ExpiryRaisesSignalOnce | crates/taskctx/src/stat.rs:159-194 | an armed timer whose budget runs out raises its signal once and is rearmed with the full interval |
| TimeStats.Step | crates/taskctx/src/stat.rs:90-133 | each of the four transitions never decreases utime or stime |
| TimeStats.AccountingMonotone | crates/taskctx/src/stat.rs:90-133 | over any allowed trace of transitions, utime and stime never decrease |
| TimeStatObject.TimeStat.constructor | crates/taskctx/src/stat.rs:61-76 | the fields hold the initial state |
| TimeStatObject.TimeStat.Output | crates/taskctx/src/stat.rs:78-80 | (user time, kernel time) in nanoseconds, as accumulated |
| TimeStatObject.TimeStat.OutputTimerAsUs | crates/taskctx/src/stat.rs:138-140 | interval and remaining time in microseconds, each rounded down |
| TimeStatObject.TimeStat.Reset | crates/taskctx/src/stat.rs:83-88 | the new fields are exactly `TimeStats.Reset` of the old |
| TimeStatObject.TimeStat.UpdateTimer | crates/taskctx/src/stat.rs:159-171 | the new fields are exactly `TimeStats.UpdateTimer` of the old |
| TimeStatObject.TimeStat.SwitchIntoKernelMode | crates/taskctx/src/stat.rs:90-98 | the new fields are exactly the specification's |
| TimeStatObject.TimeStat.SwitchIntoUserMode | crates/taskctx/src/stat.rs:100-109 | the new fields are exactly the specification's |
| TimeStatObject.TimeStat.SwitchFromOldTask | crates/taskctx/src/stat.rs:111-121 | the new fields are exactly the specification's |
| TimeStatObject.TimeStat.SwitchToNewTask | crates/taskctx/src/stat.rs:123-133 | the new fields are exactly the specification's |
| TimeStatObject.TimeStat.SetTimer | crates/taskctx/src/stat.rs:145-156 | new fields and result are exactly the specification's |
| TimeStatObject.TimeStat.CheckPendingTimerSignal | crates/taskctx/src/stat.rs:180-194 | new fields and signal are exactly the specification's |
| Tasks.TaskIdCounter.constructor | crates/taskctx/src/task.rs:20 | the counter starts at 1 |
| Tasks.TaskIdCounter.NewId | crates/taskctx/src/task.rs:23-26 | returns the counter and bumps it, so ids strictly increase |
| Tasks.TaskIdCounter.Clear | crates/taskctx/src/task.rs:35-37 | the next id is 5 |
| Tasks.TaskStateFrom | crates/taskctx/src/task.rs:55-66 | decoding a stored code gives the state with that code |
| Tasks.TaskStateRoundTrip | crates/taskctx/src/task.rs:55-66 | `TaskState::from(s as u8) == s` for all four states |
| Tasks.SchedPolicyFrom | crates/taskctx/src/task.rs:86-98 | 0, 1, 2, 3, 5 decode to the five policies, each to the one with that code; all else to UNKNOWN |
| Tasks.SchedPolicyCode | crates/taskctx/src/task.rs:100-112 | every policy encodes as one of -1, 0, 1, 2, 3, 5, and only UNKNOWN as -1 |
| Tasks.SchedPolicyRoundTrip | crates/taskctx/src/task.rs:86-112 | the isize encoding inverts decoding on known policies; UNKNOWN and only UNKNOWN encodes as -1 |
| Tasks.PreemptInc | crates/taskctx/src/task.rs:689-691 | the count plus one below 2^64 - 1, and 0 from 2^64 - 1 (the wrap) |
| Tasks.PreemptDec | crates/taskctx/src/task.rs:698-700 | the count minus one, 0 wrapping to usize::MAX |
| Tasks.PreemptBalanced | crates/taskctx/src/task.rs:682-707 | a disable/enable pair in either order restores the count |
| Tasks.AlignUp4k | crates/taskctx/src/task.rs:273 | the least multiple of 4096 not below x |
| Tasks.CpuSetLen | crates/taskctx/src/task.rs:479-483 | the bit count is the minimum of `set_size * 4` and the CPU count |
| Tasks.AtMostOneBitMask | crates/taskctx/src/task.rs:478-486 | masking by a word with at most one bit keeps that bit or nothing |
| Tasks.AtMostOneBitShift | crates/taskctx/src/task.rs:478-486 | shifting a word with at most one bit left by one keeps at most one bit |
| Tasks.BitIsSingle | crates/taskctx/src/task.rs:478-486 | `1 << k` has at most one bit set |
| Tasks.AndAbsorbs | crates/taskctx/src/task.rs:478-486 | masking twice by the same word is masking once |
| Tasks.MaskBit | crates/taskctx/src/task.rs:478-486 | `mask & 1 << k` lies within the mask and is either 0 or bit k |
| Tasks.CpuSetMask | crates/taskctx/src/task.rs:478-486 | `set_cpu_set` keeps at most bit `len - 1` of the mask, `len = min(size*4, max)` |
| Tasks.TaskInner.New | crates/taskctx/src/task.rs:254-289 | fresh id from the counter, kernel stack of `align_up_4k(size)`, idle iff named "idle", the given process id, token and SIGCHLD flag, and every `new_common` default |
| Tasks.TaskInner.NewInit | crates/taskctx/src/task.rs:543-621 | a task with the `new_common` defaults (Ready, exit code 0, preempt 0, not leader, cpu_set 0, (FIFO, 1), not vforked), init, idle iff named "idle" |
| Tasks.TaskInner.SetState | crates/taskctx/src/task.rs:625-633 | `state()` afterwards returns the state set |
| Tasks.TaskInner.State | crates/taskctx/src/task.rs:625-627 | the state read back encodes as the stored u8 code |
| Tasks.TaskInner.CanPreempt | crates/taskctx/src/task.rs:682-684 | when the count equals the caller's, one more unmatched disable or enable makes it differ |
| Tasks.TaskInner.DisablePreempt | crates/taskctx/src/task.rs:689-691 | the count becomes `PreemptInc` of the old |
| Tasks.TaskInner.EnablePreempt | crates/taskctx/src/task.rs:698-700 | the count becomes `PreemptDec` of the old |
| Tasks.TaskInner.SetPreemptPending | crates/taskctx/src/task.rs:668-670 | the reschedule flag is the value set |
| Tasks.TaskInner.SetExitCode | crates/taskctx/src/task.rs:721-729 | for an i32 code, the exit code read back is the one set |
| Tasks.TaskInner.SetLeader | crates/taskctx/src/task.rs:468-475 | the leader flag read back is the one set |
| Tasks.TaskInner.SetProcessId | crates/taskctx/src/task.rs:448-457 | the process id read back is the one set |
| Tasks.TaskInner.SetSchedStatus | crates/taskctx/src/task.rs:494-505 | the sched status read back is the one set |
| Tasks.TaskInner.SetCpuSet | crates/taskctx/src/task.rs:478-486 | the stored mask is `CpuSetMask` of the arguments |
| Tasks.TaskInner.SetVforkChild | crates/taskctx/src/task.rs:531-539 | the vfork flag read back is the one set |
| Tasks.TaskInner.SetSigChild | crates/taskctx/src/task.rs:513-520 | the SIGCHLD-on-exit flag read back is the one set |
| Tasks.TaskInner.SetChildTid | crates/taskctx/src/task.rs:418-421 | the stored tid is the one set |
| Tasks.TaskInner.SetClearChildTid | crates/taskctx/src/task.rs:423-431 | the stored tid is the one set |
| Tasks.TaskInner.SetPageTableToken | crates/taskctx/src/task.rs:434-443 | the stored token is the one set |
| Tasks.TaskInner.SetName | crates/taskctx/src/task.rs:227-236 | the name read back is the one set |
| Futex.RetainedMembers | modules/axprocess/src/futex.rs:42-50 | a waiter survives `retain` iff it was queued and does not match |
| Futex.RetainedConcat | modules/axprocess/src/futex.rs:42-50 | retaining a concatenation retains each part |
| Futex.RetainedAllKept | modules/axprocess/src/futex.rs:42-50 | a list with no matching waiter is retained unchanged |
| Futex.RetainedIdempotent | modules/axprocess/src/futex.rs:42-50 | retaining twice is retaining once |
| Futex.ClearWaitSpec | modules/axprocess/src/futex.rs:37-56 | no address is added; every address left holds a non-empty retained list; every address whose retained list is non-empty stays |
| Futex.ClearWaitPurges | modules/axprocess/src/futex.rs:41-55 | afterwards no waiter matches the id (the process with `leader`, the task otherwise), every waiter left was queued at the same address, and no list is empty |
| Futex.ClearWaitKeepsOthers | modules/axprocess/src/futex.rs:42-50 | a waiter that does not match stays at its address |
| Futex.ClearWaitIdempotent | modules/axprocess/src/futex.rs:37-56 | `clear_wait` twice with the same arguments equals once |
| Futex.RetainWaiters | modules/axprocess/src/futex.rs:44 | the element-by-element `retain` loop yields the retained list |
| Futex.FutexTable.constructor | modules/axprocess/src/futex.rs:10-11 | the table starts empty |
| Futex.FutexTable.ClearWait | modules/axprocess/src/futex.rs:37-56 | the table afterwards is `ClearWaitSpec` of the table before |
| Futex.ClearWaitMap | modules/axprocess/src/futex.rs:40-55 | the loop over every address, dropping emptied lists, computes `ClearWaitSpec` |
| Schedule.SchedTables.constructor | modules/axtask/src/schedule.rs:12-18 | all three tables start empty |
| Schedule.SchedTables.GetWaitForExitQueue | modules/axtask/src/schedule.rs:53-57 | Some exactly when the id has a queue, and then that queue |
| Schedule.SchedTables.AddToTimerList | modules/axtask/src/schedule.rs:30-32 | the task is in the timer list; no other id's membership changes |
| Schedule.SchedTables.RemoveFromTimerList | modules/axtask/src/schedule.rs:39-41 | the task is not in the timer list; others unchanged; removing an absent task changes nothing |
| Schedule.SchedTables.AddToWaitQueue | modules/axtask/src/schedule.rs:34-36 | the task is in the wait-queue set; others unchanged |
| Schedule.SchedTables.RemoveFromWaitQueue | modules/axtask/src/schedule.rs:43-45 | the task is not in the wait-queue set; others unchanged; idempotent |
| Schedule.SchedTables.AddWaitForExitQueue | modules/axtask/src/schedule.rs:47-51 | a fresh queue is registered for the task, replacing any old one; other ids keep theirs |
| Schedule.SchedTables.NotifyWaitForExit | modules/axtask/src/schedule.rs:59-63 | the task's queue is removed and returned for notification exactly when one existed; other ids keep theirs |
| FdTables.WithCloseOnExec | api/linux_syscall_api/src/syscall_fs/imp/ctl.rs:390-392 | CLOEXEC set, every other flag kept |
| FdTables.WithoutCloseOnExec | api/linux_syscall_api/src/syscall_fs/imp/ctl.rs:390-392 | CLOEXEC cleared, every other flag kept |
| FdTables.File.constructor | api/linux_syscall_api/src/syscall_fs/imp/io.rs:52-73 | a file object with the given kind, access and flags |
| FdTables.File.SetCloseOnExec | api/linux_syscall_api/src/syscall_fs/imp/ctl.rs:389-396 | reports whether the object accepts it and, if so, sets or clears CLOEXEC only |
| FdTables.File.SetStatus | api/linux_syscall_api/src/syscall_fs/imp/ctl.rs:399-405 | reports whether the object accepts it and, if so, replaces the flags |
| FdTables.FdTable.constructor | api/linux_syscall_api/src/syscall_task/imp/task.rs:494 | a table with the given slots and limit |
| FdTables.FdTable.SetLimit | api/linux_syscall_api/src/syscall_task/imp/task.rs:393-396 | the limit is the one set |
| FdTables.FdTable.AllocFd | api/linux_syscall_api/src/syscall_fs/imp/io.rs:280-283 | an index whose slot is empty, in a table only padded with empty slots; or failure with the table unchanged |
| IoSyscalls.Dup | api/linux_syscall_api/src/syscall_fs/imp/io.rs:268-290 | closed fd is EBADF, allocation failure EMFILE, both with the table unchanged; else a slot that was empty now shares the handle and every other slot is unchanged |
| IoSyscalls.Dup3Table | api/linux_syscall_api/src/syscall_fs/imp/io.rs:321-336 | the table padded to newFd+1, slot newFd sharing the handle of fd, every other slot unchanged |
| IoSyscalls.Dup3 | api/linux_syscall_api/src/syscall_fs/imp/io.rs:307-337 | closed fd is EPERM; newFd beyond both the table and the limit is EBADF (table unchanged); else the table becomes `Dup3Table` and newFd is returned |
| IoSyscalls.Close | api/linux_syscall_api/src/syscall_fs/imp/io.rs:419-446 | closed fd is EPERM with the table unchanged; else the slot becomes empty, the length is kept, and 0 is returned |
| IoSyscalls.Pipe2 | api/linux_syscall_api/src/syscall_fs/imp/io.rs:222-250 | read end and write end in two distinct slots that were empty or new, all other slots unchanged; allocation failure is EPERM, with the table unchanged (first allocation) or holding the read end in a new slot (second); an unmapped array is EINVAL with the table unchanged |
| IoSyscalls.ReadTarget | api/linux_syscall_api/src/syscall_fs/imp/io.rs:32-73 | the file is read exactly when the buffer is non-null and mapped, the fd open, and the file readable or a socket that may block; EFAULT before EBADF |
| IoSyscalls.WriteTarget | api/linux_syscall_api/src/syscall_fs/imp/io.rs:102-144 | as ReadTarget with writable |
| IoSyscalls.ReadGoesAhead | api/linux_syscall_api/src/syscall_fs/imp/io.rs:52-73 | a directory never reaches the file object; a readable non-directory always does; an unreadable file that is not a socket never does |
| IoSyscalls.WriteGoesAhead | api/linux_syscall_api/src/syscall_fs/imp/io.rs:122-144 | as ReadGoesAhead with writable |
| IoSyscalls.DirectoryReadWrite | api/linux_syscall_api/src/syscall_fs/imp/io.rs:52-55 | a directory fd is EISDIR for read but EBADF for write |
| IoSyscalls.NonblockingSocketAgain | api/linux_syscall_api/src/syscall_fs/imp/io.rs:60-63 | a connected nonblocking socket that cannot be read or written reports EAGAIN |
| IoSyscalls.Read | api/linux_syscall_api/src/syscall_fs/imp/io.rs:26-88 | the length read on success; WouldBlock is EAGAIN, InvalidInput EINVAL, others EPERM |
| IoSyscalls.Write | api/linux_syscall_api/src/syscall_fs/imp/io.rs:96-161 | the length written on success; ConnectionReset is EPIPE, WouldBlock EAGAIN, InvalidInput EINVAL, others EPERM |
| IoSyscalls.VectoredAllSucceed | api/linux_syscall_api/src/syscall_fs/imp/io.rs:168-213 | when every counted entry succeeds, the result is the sum of their lengths |
| IoSyscalls.VectoredTotal | api/linux_syscall_api/src/syscall_fs/imp/io.rs:168-213 | an error result is the result of some counted entry, and a success means every counted entry succeeded |
| IoSyscalls.CountedSum | api/linux_syscall_api/src/syscall_fs/imp/io.rs:172-186 | the running total of readv/writev; it is never negative when no entry reports a negative length |
| IoSyscalls.VectoredFirstError | api/linux_syscall_api/src/syscall_fs/imp/io.rs:168-213 | the first counted entry that fails decides the result, unchanged |
| IoSyscalls.VectoredIo | api/linux_syscall_api/src/syscall_fs/imp/io.rs:168-213 | the accumulation loop of readv/writev computes `VectoredTotal` (null or empty entries skipped) |
| IoSyscalls.SeekRequest | api/linux_syscall_api/src/syscall_fs/imp/io.rs:638-675 | EBADF iff fd < 3 or not open, EISDIR iff a directory, else the seek asked: SET unsigned, CUR and END as isize; other whence EINVAL |
| IoSyscalls.Lseek | api/linux_syscall_api/src/syscall_fs/imp/io.rs:638-680 | the file's new offset, the check's error, or EINVAL when the seek fails |
| IoSyscalls.Ftruncate64 | api/linux_syscall_api/src/syscall_fs/imp/io.rs:785-804 | 0 iff the fd is open and the truncate succeeds; every failure is EINVAL |
| CtlSyscalls.Fcntl64 | api/linux_syscall_api/src/syscall_fs/imp/ctl.rs:355-421 | closed fd EBADF with table unchanged; DUPFD, GETFD (1 iff CLOEXEC), SETFD (from arg & 1, EINVAL if refused), GETFL, SETFL (undefined bits or refusal EINVAL), DUPFD_CLOEXEC (allocate first, then flag and copy); other cmd EINVAL |
| CtlSyscalls.DupFd | api/linux_syscall_api/src/syscall_fs/imp/ctl.rs:373-382 | EMFILE with the table unchanged, or a new slot sharing the handle |
| CtlSyscalls.SetStatusFlags | api/linux_syscall_api/src/syscall_fs/imp/ctl.rs:397-405 | undefined bits or a refusing file is EINVAL with flags unchanged; else the flags are replaced |
| CtlSyscalls.DupFdCloseOnExec | api/linux_syscall_api/src/syscall_fs/imp/ctl.rs:406-418 | EMFILE unchanged; a refusing file is EINVAL with the table only padded; else CLOEXEC set on the shared file and a new slot shares it |
| CtlSyscalls.Renameat2 | api/linux_syscall_api/src/syscall_fs/imp/ctl.rs:254-340 | unresolved path panics; /proc is EPERM; undefined bits, NOREPLACE+EXCHANGE and EXCHANGE+WHITEOUT are EINVAL; NOREPLACE onto an existing path EEXIST; success needs the source to exist; same path is SamePath |
| CtlSyscalls.RenameOntoItself | api/linux_syscall_api/src/syscall_fs/imp/ctl.rs:344-353 | `rename` of an existing path onto itself is EEXIST; `renameat2` without flags is a no-op success |
| CtlSyscalls.Getcwd | api/linux_syscall_api/src/syscall_fs/imp/ctl.rs:28-59 | ERANGE iff the buffer is shorter than the path; else the buffer address, or EINVAL when unmapped |
| Processes.Process.constructor | api/linux_syscall_api/src/syscall_task/imp/task.rs:488-494 | a process with the given pid, parent, heap bottom and table, no tasks, and the heap top and path passed in for the body of `Process::new` |
| Processes.Process.SetHeapTop | api/linux_syscall_api/src/syscall_mem/imp.rs:23 | the heap top is the one set |
| Processes.Process.SetFilePath | api/linux_syscall_api/src/syscall_task/imp/task.rs:87-151 | the path is the one set |
| Processes.Registry.constructor | api/linux_syscall_api/src/syscall_task/imp/schedule.rs:29-30 | both registries start empty |
| Processes.FirstLeader | api/linux_syscall_api/src/syscall_task/imp/schedule.rs:37-43 | None iff no task is leader; else the first leader in list order |
| Processes.WithoutTask | api/linux_syscall_api/src/syscall_task/imp/task.rs:485 | exactly the tasks with another id survive, and no more of them than there were |
| Processes.WithoutTaskConcat | api/linux_syscall_api/src/syscall_task/imp/task.rs:485 | retain distributes over concatenation, so the survivors keep their relative order |
| Processes.WithoutAbsentTask | api/linux_syscall_api/src/syscall_task/imp/task.rs:485 | a list holding no task with that id is returned unchanged, order included |
| SchedSyscalls.ResolveTarget | api/linux_syscall_api/src/syscall_task/imp/schedule.rs:29-49 | the tid map first; else the process's first leader in list order (`FirstLeader`), panicking when it has none; else 0 is the caller; else ESRCH |
| SchedSyscalls.ValidateSchedParam | api/linux_syscall_api/src/syscall_task/imp/schedule.rs:167-181 | accepted iff the policy is known, priority 0 for OTHER/BATCH/IDLE and 1..99 for FIFO/RR; the status accepted encodes back to the argument; else EINVAL |
| SchedSyscalls.SchedGetscheduler | api/linux_syscall_api/src/syscall_task/imp/schedule.rs:193-226 | negative pid EINVAL; resolution errors pass through; else the encoding of the target's policy |
| SchedSyscalls.SchedSetscheduler | api/linux_syscall_api/src/syscall_task/imp/schedule.rs:126-189 | EINVAL for a negative pid or null param before lookup; resolution errors; EFAULT; validation error; on every path not returning 0 a resolved target's status is unchanged; else the status set, 0 returned, and getscheduler afterwards reports the policy |
| SchedSyscalls.AffinityMask | api/linux_syscall_api/src/syscall_task/imp/schedule.rs:61-68 | the bits below len come from the task's CPU set, the bits above from the caller's word |
| SchedSyscalls.AffinityMaskAsWritten | api/linux_syscall_api/src/syscall_task/imp/schedule.rs:61-65 | as written, neither the low bits (the CPU set) nor the high bits (the caller's word) survive |
| SchedSyscalls.AffinityAsWrittenIsZero | api/linux_syscall_api/src/syscall_task/imp/schedule.rs:64-65 | the two `&=` as written always leave 0 |
| SchedSyscalls.AffinityCounterexample | api/linux_syscall_api/src/syscall_task/imp/schedule.rs:64-65 | CPU set 1 over one CPU reads back 0 as written, 1 as intended |
| SchedSyscalls.SchedGetaffinity | api/linux_syscall_api/src/syscall_task/imp/schedule.rs:24-71 | resolution errors, then EFAULT; else SMP and the intended mask |
| SchedSyscalls.SchedSetaffinity | api/linux_syscall_api/src/syscall_task/imp/schedule.rs:78-120 | resolution errors, then EFAULT (only after resolving); a bit count of 0 panics; on every path not returning 0 a resolved target's CPU set is unchanged; else the target's CPU set is `CpuSetMask` and 0 is returned |
| SchedSyscalls.AffinityReadBack | api/linux_syscall_api/src/syscall_task/imp/schedule.rs:61-117 | what setaffinity stores, getaffinity (as intended) reads back within the low bits |
| SchedSyscalls.DoubleBelowLow | api/linux_syscall_api/src/syscall_task/imp/schedule.rs:63-65 | a word within the bits below its double stays so when doubled |
| SchedSyscalls.BitBelowLow | api/linux_syscall_api/src/syscall_task/imp/schedule.rs:63-65 | bit k lies within `(1 << (k+1)) - 1` |
| SchedSyscalls.BitBelowDouble | api/linux_syscall_api/src/syscall_task/imp/schedule.rs:63-65 | bit k lies within the bits below its double |
| TaskSyscalls.CloneFlagBits | api/linux_syscall_api/src/syscall_task/imp/task.rs:182 | the u32 flag word without its low six bits; with them it is the whole word |
| TaskSyscalls.CloneSplit | api/linux_syscall_api/src/syscall_task/imp/task.rs:166-199 | invalid clone flags panic; SIGCHLD-on-exit iff the low six bits are 17; stack None iff 0; ctid and tls swap between x86_64 and the others |
| TaskSyscalls.Clone | api/linux_syscall_api/src/syscall_task/imp/task.rs:166-199 | the new task's id, or ENOMEM when creation fails |
| TaskSyscalls.VforkArguments | api/linux_syscall_api/src/syscall_task/imp/task.rs:243-252 | 0x4011 splits into CLONE_VFORK with SIGCHLD and no stack |
| TaskSyscalls.ForkArguments | api/linux_syscall_api/src/syscall_task/imp/task.rs:549-555 | 1 splits into no flags and no SIGCHLD |
| TaskSyscalls.WaitStep | api/linux_syscall_api/src/syscall_task/imp/task.rs:265-292 | reaped pid returned; NotExist EPERM; Running with WNOHANG 0, with a signal EINTR, else retry; other status panics |
| TaskSyscalls.WaitOutcome | api/linux_syscall_api/src/syscall_task/imp/task.rs:264-295 | the first pass that does not yield decides; None iff every pass yields |
| TaskSyscalls.WaitNoHangDecidesAtOnce | api/linux_syscall_api/src/syscall_task/imp/task.rs:275-279 | with WNOHANG the first poll decides |
| TaskSyscalls.Wait4 | api/linux_syscall_api/src/syscall_task/imp/task.rs:259-296 | invalid flags panic; else the loop's result is `WaitOutcome` |
| TaskSyscalls.SleepRemainder | api/linux_syscall_api/src/syscall_task/imp/task.rs:315-336 | sec*1e9 + nsec is the unslept part (as a usize), nsec < 1e9; zero when fully slept |
| TaskSyscalls.SleepRemainderAddsUp | api/linux_syscall_api/src/syscall_task/imp/task.rs:318-336 | slept plus the reported remainder is the request |
| TaskSyscalls.Nanosleep | api/linux_syscall_api/src/syscall_task/imp/task.rs:309-342 | rem written iff the pointer is non-null; EINTR iff a signal is pending |
| TaskSyscalls.ArgCount | api/linux_syscall_api/src/syscall_task/imp/task.rs:103-112 | the index of the first zero word |
| TaskSyscalls.CollectArgs | api/linux_syscall_api/src/syscall_task/imp/task.rs:101-125 | the pointers before the terminating zero, all non-zero |
| TaskSyscalls.Execve | api/linux_syscall_api/src/syscall_task/imp/task.rs:87-151 | unresolved path EINVAL, directory EISDIR, nothing changed; else path recorded, the process's futex waiters cleared in leader mode, argc returned or the task exits with 0 |
| TaskSyscalls.PrlimitStep | api/linux_syscall_api/src/syscall_task/imp/task.rs:363-413 | only the caller's process and NOFILE change anything; old limit (limit, limit) read before the new rlim_cur; STACK and AS report fixed values |
| TaskSyscalls.PrlimitSetThenGet | api/linux_syscall_api/src/syscall_task/imp/task.rs:382-396 | setting NOFILE then querying it reports the new limit |
| TaskSyscalls.Prlimit64 | api/linux_syscall_api/src/syscall_task/imp/task.rs:363-413 | the limit and the old limit reported are `PrlimitStep`'s; the result is always 0 |
| TaskSyscalls.Setsid | api/linux_syscall_api/src/syscall_task/imp/task.rs:473-511 | EPERM changing nothing when the tid is the pid; else the task leaves the old list, is the only task and leader of a fresh process with a new id, registered under it, and its tid is returned; the new process inherits the parent, heap bottom and a copy of the table |
| MemSyscalls.BrkStep | api/linux_syscall_api/src/syscall_mem/imp.rs:18-28 | heap top becomes brk iff brk is non-zero and within 0x20000 above the bottom; the value returned is the new top; the heap stays in range |
| MemSyscalls.BrkThenQuery | api/linux_syscall_api/src/syscall_mem/imp.rs:18-28 | brk(0) only reports; after an accepted brk(b), brk(0) reports b |
| MemSyscalls.Brk | api/linux_syscall_api/src/syscall_mem/imp.rs:18-28 | heap top and result are `BrkStep`'s |
| MemSyscalls.MmapRequest | api/linux_syscall_api/src/syscall_mem/imp.rs:42-100 | MAP_FIXED at 0 EINVAL; with MAP_ANONYMOUS, an anonymous plan iff fd -1 and offset 0 and EINVAL otherwise; without it, EINVAL for a slot not open, a panic exactly when the open slot is not a regular file, and otherwise a file-backed plan over that file and offset |
| MemSyscalls.ShmgetDecision | api/linux_syscall_api/src/syscall_mem/imp.rs:173-219 | never panics; errors are EINVAL, EEXIST or ENOENT; IPC_PRIVATE only ever creates a private segment; an existing key yields its own shmid; a keyed creation is for an absent key; a created mode lies below the mask |
| MemSyscalls.ShmgetPlanAsWritten | api/linux_syscall_api/src/syscall_mem/imp.rs:166-219 | the decision with the ten-bit mask of line 174, on the i32 readings of key and flags |
| MemSyscalls.ShmgetPlan | api/linux_syscall_api/src/syscall_mem/imp.rs:166-219 | the decision with the nine permission bits the comment on line 173 describes, on the i32 readings of key and flags |
| MemSyscalls.ShmgetAsWrittenNeverCreatesKeyed | api/linux_syscall_api/src/syscall_mem/imp.rs:174-219 | with the ten-bit mask no keyed segment is ever created and EEXIST never reported |
| MemSyscalls.ShmgetCreateCounterexample | api/linux_syscall_api/src/syscall_mem/imp.rs:174-207 | shmget(42, IPC_CREAT \| 0o666) on a new key: ENOENT as written, created as intended |
| MemSyscalls.ShmgetCreatesWithPermissions | api/linux_syscall_api/src/syscall_mem/imp.rs:174-219 | with the nine-bit mask: new key with CREAT is created with the permissions; without CREAT ENOENT; existing key with CREAT\|EXCL EEXIST, otherwise reused; IPC_PRIVATE always creates |
| MemSyscalls.ShmgetRejectsUnknownFlags | api/linux_syscall_api/src/syscall_mem/imp.rs:176-179 | a bit above the `ShmFlags` bits is EINVAL |
| MemSyscalls.ShmKeyMap.constructor | api/linux_syscall_api/src/syscall_mem/imp.rs:189 | the key map starts empty |
| MemSyscalls.ShmKeyMap.Shmget | api/linux_syscall_api/src/syscall_mem/imp.rs:166-220 | runs the corrected `ShmgetPlan` (nine-bit mask, see Findings), not the ten-bit mask as written; the decision's result; only a created keyed segment enters the key map; failed creation is EINVAL |
| MemSyscalls.ShmatMappingFlags | api/linux_syscall_api/src/syscall_mem/imp.rs:280-288 | always USER and READ; WRITE iff not SHM_RDONLY; EXECUTE iff SHM_EXEC |
| MemSyscalls.Shmat | api/linux_syscall_api/src/syscall_mem/imp.rs:236-295 | undefined flags panic; unknown segment EINVAL; address 0 takes the free area or ENOMEM; unaligned without SHM_RND EINVAL; without SHM_REMAP panics; the address used is aligned within 4 KiB above the one asked |

## Left out

- Locks and blocking: every system call is one atomic step. `yield_now` and the sleep itself are left out. `wait4` sees the answers of successive `wait_pid` polls as a sequence, and `nanosleep` sees the time slept as a parameter.
- The memory set: mapping, unmapping, TLB flushes, fault-in of user pointers, the free-area search, and the creation and attachment of shared segments. Each enters as a parameter answering success or failure. The `prot` argument of `mmap` is not modelled.
- What file objects do: the bytes read or written, the new offset of a seek, whether a truncate succeeds. These enter as outcome parameters. The model follows the build with the network feature, where a socket that is not readable or writable but may block goes on to the file object.
- `alloc_fd` and the fd limit are not part of the modelled files. `FdTables.FdTable.AllocFd` has a body, but its callers rely only on its contract.
- The bodies of `Process::new`, `clone_task`, `wait_pid` and `Process::exec` are outside the modelled files. Their results are parameters.
- The bit sets `CloneFlags`, `WaitFlags` and `OpenFlags`: which values their `from_bits` accepts is a parameter (`cloneFlagsValid`, `waitFlagsValid`, `definedFlags`).
- `clone3`, `exit`, `yield`, `set_tid_address`, `getpid`/`getppid`/`gettid`, `getpgid`/`setpgid`, `umask`, `prctl` and `arch_prctl`. These are simple forwards or out of the named core.
- TaskSyscalls.Setsid: the new process's signal module is not modelled. Nor is the copy of the memory set. The limit of the copied descriptor table, the heap top and the executable path are the parameters `fdLimit`, `newHeapTop` and `newPath`, because the body of `Process::new` is not part of this model.
- TaskSyscalls.Execve: the loading of the image and the `envp` strings themselves are not modelled. The argument count is what is returned when `exec` succeeds.
- TaskSyscalls.SleepRemainder: the `Duration` sum of the request is unbounded. A request whose seconds overflow `Duration` (a panic in the source) is not modelled. The difference is truncated to a usize as the source's cast does.
- `TaskInner`'s register context, kernel stack contents, entry closure, TLS area and embedded `TimeStat`. The time-statistics wrappers on `TaskInner` forward to `TimeStat`, which is modelled on its own.
- The `notify_all` on the removed wait-for-exit queue: the queue's waiters belong to the run queue, which is not part of this model. `NotifyWaitForExit` returns the queue that would be notified.
- The per-CPU current-task pointer: the calling task and process are parameters.
- Tasks.TaskInner.SetExitCode: the exit code is an `AtomicI32`; the model stores it as an integer and requires an i32 argument, as the source's signature does.
- u64 overflow of sums (`readv` totals, `cpu_set_size * 4`, `heap_bottom + MAX_HEAP_SIZE`, and the `utime_ns += delta` / `stime_ns += delta` accumulations of `TimeStat`) is not modelled. Integers are unbounded there.
- Build mode: the model follows a build with overflow checks on (a debug build). Where the model reaches an overflowing subtraction or shift, the result is a `Panic`. There are three exceptions, each named on its own line: the u64 sums listed above (left unbounded), the timestamp differences of `TimeStat` (excluded by a precondition) and the task-id counter (left unbounded). The preemption counter's atomic `fetch_add`/`fetch_sub` and the `as` casts wrap in every build and are modelled with their wrap. In `shmget`, `flags - mode` only clears the mode bits and cannot overflow, so no build choice arises there.
- TimeStats.SwitchIntoKernelMode: this function, `TimeStats.SwitchIntoUserMode`, `TimeStats.SwitchFromOldTask`, `TimeStats.SwitchToNewTask` and their `TimeStatObject.TimeStat` methods require the current timestamp to be at least the stored one. The callers pass a monotone clock reading, so `now - timestamp` never underflows; a clock that went backwards (a debug-build panic) is not modelled.
- Tasks.TaskIdCounter.NewId: the id counter is an unbounded integer; the u64 wrap of `ID_COUNTER.fetch_add(1)` after 2^64 ids is not modelled.
- SchedSyscalls.SchedSetaffinity: with a bit count of 0 (`cpu_set_size` 0 or no CPU), `len - 1` in `set_cpu_set` underflows, which is a `Panic` in the modelled debug build. A release build would wrap it, mask the shift and store `mask & 1 << 63`; that outcome is not modelled.
- MemSyscalls.ShmKeyMap.Shmget: runs the corrected nine-bit mask (see Findings). As written, the decision is `ShmgetPlanAsWritten` and the key map never grows.
- SchedSyscalls.SchedGetaffinity: models the intended `|` for the second update (see Findings). The as-written write is `AffinityMaskAsWritten`, which is always 0.

## Findings

| source | as written | input that shows it | evidently intended | confidence | as-written member | corrected member |
|---|---|---|---|---|---|---|
| api/linux_syscall_api/src/syscall_mem/imp.rs:174 | the mode mask is `(1 << 10) - 1`, ten bits, so IPC_CREAT (0o1000, bit 9) is taken as a permission bit and never seen as a flag | `shmget(42, IPC_CREAT \| 0o666)` on an unused key returns ENOENT instead of creating the segment; EEXIST is unreachable | nine permission bits (0o777), as the comment on the line says | high (not executed) | MemSyscalls.ShmgetAsWrittenNeverCreatesKeyed | MemSyscalls.ShmgetCreatesWithPermissions |
| api/linux_syscall_api/src/syscall_task/imp/schedule.rs:64-65 | `prev &= !low; prev &= cpu_set & low;` intersects two disjoint masks | any call: a task pinned to CPU 0 (cpu_set 1) queried over one CPU reads back 0 | the second update is `\|=`: the caller's high bits kept, the task's CPU set in the low bits | high (not executed) | SchedSyscalls.AffinityCounterexample | SchedSyscalls.AffinityReadBack |
