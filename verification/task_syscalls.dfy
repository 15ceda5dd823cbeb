/**
  api/linux_syscall_api/src/syscall_task/imp/task.rs: the argument split of
  `clone` (and the constants `fork` and `vfork` pass), the retry loop of
  `wait4`, the residual `nanosleep` reports, the checks and argument count
  of `execve`, `prlimit64` and `setsid`.

  What lies behind these calls (`clone_task`, `wait_pid`, the sleep itself,
  `Process::exec`, the pending-signal check) enters as parameters: the
  answer each gives in the run being modelled.
 */
module TaskSyscalls {
  import opened Common
  import opened Tasks
  import opened Futex
  import opened FdTables
  import opened Processes

  const SIGCHLD: nat := 17

  /** The two argument orders of `clone`: x86_64 passes `ctid` before `tls`, the others after. */
  datatype Arch = X86_64 | OtherArch

  /** What `clone` hands to `clone_task`. */
  datatype CloneRequest = CloneRequest(flags: nat, stack: Option<nat>, ptid: nat, tls: nat, ctid: nat, sigChild: bool)

  /**
    The clone flags of a `clone` flag word: the word without its low six bits
    (the exit signal), as a u32.
   */
  function CloneFlagBits(flags: nat): (r: nat)
    ensures r < HALF_WORD && r % 64 == 0
    ensures flags < HALF_WORD ==> r + flags % 64 == flags
  {
    (flags - flags % 64) % HALF_WORD
  }

  /**
    The argument split of `clone`. `cloneFlagsValid` says which u32 values
    `CloneFlags::from_bits` accepts; any other makes the `unwrap` panic.
   */
  function CloneSplit(args: seq<nat>, arch: Arch, cloneFlagsValid: nat -> bool): (r: SysResult<CloneRequest>)
    requires |args| == 6
    ensures r.Panic? <==> !cloneFlagsValid(CloneFlagBits(args[0]))
    ensures !r.Err?
    ensures r.Ok? ==>
      && r.value.flags == CloneFlagBits(args[0])
      && (r.value.sigChild <==> args[0] % 64 == SIGCHLD)
      && (r.value.stack.None? <==> args[1] == 0)
      && (r.value.stack.Some? ==> r.value.stack.value == args[1])
      && r.value.ptid == args[2]
      && (arch == X86_64 ==> r.value.ctid == args[3] && r.value.tls == args[4])
      && (arch == OtherArch ==> r.value.tls == args[3] && r.value.ctid == args[4])
  {
    var ctid := if arch == X86_64 then args[3] else args[4];
    var tls := if arch == X86_64 then args[4] else args[3];
    var bits := CloneFlagBits(args[0]);
    if !cloneFlagsValid(bits) then Panic
    else
      var stack := if args[1] == 0 then None else Some(args[1]);
      Ok(CloneRequest(bits, stack, args[2], tls, ctid, args[0] % 64 == SIGCHLD))
  }

  /**
    `clone`: the new task's id, or ENOMEM when `clone_task` fails. `created`
    is what `clone_task` returns for the request.
   */
  function Clone(args: seq<nat>, arch: Arch, cloneFlagsValid: nat -> bool, created: Option<nat>): (r: SysResult<int>)
    requires |args| == 6
    ensures r.Panic? <==> !cloneFlagsValid(CloneFlagBits(args[0]))
    ensures !r.Panic? ==> (r.Ok? <==> created.Some?) && (r.Ok? ==> r.value == created.value) && (r.Err? ==> r.errno == ENOMEM)
  {
    match CloneSplit(args, arch, cloneFlagsValid)
    case Panic => Panic
    case Err(e) => Err(e)
    case Ok(_) => if created.Some? then Ok(created.value) else Err(ENOMEM)
  }

  /** `vfork` passes 0x4011: clone flags 0x4000 (CLONE_VFORK), exit signal SIGCHLD, no new stack. */
  lemma VforkArguments(arch: Arch, cloneFlagsValid: nat -> bool)
    requires cloneFlagsValid(0x4000)
    ensures CloneSplit([0x4011, 0, 0, 0, 0, 0], arch, cloneFlagsValid) == Ok(CloneRequest(0x4000, None, 0, 0, 0, true))
  {
  }

  /** `fork` passes 1: no clone flags, no SIGCHLD on exit (1 is not SIGCHLD), no new stack. */
  lemma ForkArguments(arch: Arch, cloneFlagsValid: nat -> bool)
    requires cloneFlagsValid(0)
    ensures CloneSplit([1, 0, 0, 0, 0, 0], arch, cloneFlagsValid) == Ok(CloneRequest(0, None, 0, 0, 0, false))
  {
  }

  /** What one `wait_pid` call answers. */
  datatype WaitAnswer =
    | Reaped(pid: int)
    | NotExist
    | Running
      /** Any other `WaitStatus`, which the call treats as unreachable. */
    | OtherStatus

  /**
    One pass of the `wait4` loop: its result, or `None` when the task yields
    and polls again. `signalPending` is whether the process has a signal
    when it is checked.
   */
  function WaitStep(answer: WaitAnswer, nohang: bool, signalPending: bool): (r: Option<SysResult<int>>)
    ensures r.None? <==> answer.Running? && !nohang && !signalPending
    ensures answer.Reaped? ==> r == Some(Ok(answer.pid))
    ensures answer.NotExist? ==> r == Some(Err(EPERM))
    ensures answer.Running? && nohang ==> r == Some(Ok(0))
    ensures answer.Running? && !nohang && signalPending ==> r == Some(Err(EINTR))
    ensures answer.OtherStatus? ==> r == Some(Panic)
  {
    match answer
    case Reaped(pid) => Some(Ok(pid))
    case NotExist => Some(Err(EPERM))
    case Running =>
      if nohang then Some(Ok(0))
      else if signalPending then Some(Err(EINTR))
      else None
    case OtherStatus => Some(Panic)
  }

  /**
    The outcome of the `wait4` loop over a run of `wait_pid` answers and
    signal checks: the result of the first pass that does not yield, or
    `None` when every pass yields (the call is still waiting).
   */
  function WaitOutcome(answers: seq<WaitAnswer>, pending: seq<bool>, nohang: bool): (r: Option<SysResult<int>>)
    requires |pending| == |answers|
    ensures r.None? <==> forall i :: 0 <= i < |answers| ==> WaitStep(answers[i], nohang, pending[i]).None?
    ensures r.Some? ==> exists i :: (0 <= i < |answers| && WaitStep(answers[i], nohang, pending[i]) == r
      && forall j :: 0 <= j < i ==> WaitStep(answers[j], nohang, pending[j]).None?)
    decreases |answers|
  {
    if answers == [] then None
    else
      var step := WaitStep(answers[0], nohang, pending[0]);
      if step.Some? then step
      else
        var rest := WaitOutcome(answers[1..], pending[1..], nohang);
        if rest.Some? then
          ghost var k :| 0 <= k < |answers[1..]| && WaitStep(answers[1..][k], nohang, pending[1..][k]) == rest
            && forall j :: 0 <= j < k ==> WaitStep(answers[1..][j], nohang, pending[1..][j]).None?;
          assert WaitStep(answers[k + 1], nohang, pending[k + 1]) == rest;
          rest
        else rest
  }

  /** With WNOHANG the loop never yields: the first answer decides. */
  lemma WaitNoHangDecidesAtOnce(answers: seq<WaitAnswer>, pending: seq<bool>)
    requires |pending| == |answers| > 0
    ensures WaitOutcome(answers, pending, true) == WaitStep(answers[0], true, pending[0])
    ensures WaitOutcome(answers, pending, true).Some?
  {
  }

  /** The WaitFlags bit WNOHANG. */
  const WNOHANG: nat := 1

  /**
    `wait4`. `waitFlagsValid` says which u32 values `WaitFlags::from_bits`
    accepts; any other makes the `unwrap` panic before the first poll.
   */
  method Wait4(optionArg: nat, waitFlagsValid: nat -> bool, answers: seq<WaitAnswer>, pending: seq<bool>)
    returns (r: Option<SysResult<int>>)
    requires |pending| == |answers|
    ensures !waitFlagsValid(optionArg % HALF_WORD) ==> r == Some(Panic)
    ensures waitFlagsValid(optionArg % HALF_WORD) ==> r == WaitOutcome(answers, pending, (optionArg % HALF_WORD) % 2 == WNOHANG)
  {
    var option := optionArg % HALF_WORD;
    if !waitFlagsValid(option) {
      return Some(Panic);
    }
    var nohang := option % 2 == WNOHANG;
    var i := 0;
    while i < |answers|
      invariant 0 <= i <= |answers|
      invariant WaitOutcome(answers, pending, nohang) == WaitOutcome(answers[i..], pending[i..], nohang)
    {
      var step := WaitStep(answers[i], nohang, pending[i]);
      if step.Some? {
        return step;
      }
      assert answers[i..][1..] == answers[i + 1..];
      assert pending[i..][1..] == pending[i + 1..];
      i := i + 1;
    }
    return None;
  }

  const NANOS_PER_SEC: nat := 1_000_000_000

  /** A `TimeSecs` value. */
  datatype TimeSecs = TimeSecs(sec: nat, nsec: nat)

  /** `Duration::new(tv_sec as u64, tv_nsec as u32)` in nanoseconds. */
  function RequestedNanos(secArg: nat, nsecArg: nat): nat
  {
    (secArg % WORD) * NANOS_PER_SEC + nsecArg % HALF_WORD
  }

  /**
    The residual `nanosleep` writes: the part of the request not slept
    (truncated to a usize, as `as_nanos() as usize` does), split into seconds
    and nanoseconds; zero when the whole request was slept.
   */
  function SleepRemainder(requested: nat, slept: nat): (r: TimeSecs)
    ensures r.nsec < NANOS_PER_SEC
    ensures slept < requested ==> r.sec * NANOS_PER_SEC + r.nsec == (requested - slept) % WORD
    ensures slept >= requested ==> r == TimeSecs(0, 0)
  {
    if slept < requested then
      var delta := (requested - slept) % WORD;
      TimeSecs(delta / NANOS_PER_SEC, delta % NANOS_PER_SEC)
    else TimeSecs(0, 0)
  }

  /** An interrupted sleep of under 2^64 ns reports exactly what is left: slept plus remainder is the request. */
  lemma SleepRemainderAddsUp(requested: nat, slept: nat)
    requires slept < requested < WORD
    ensures slept + SleepRemainder(requested, slept).sec * NANOS_PER_SEC + SleepRemainder(requested, slept).nsec == requested
  {
  }

  /**
    `nanosleep`: the result and what is written at `rem` (nothing when it is
    null). `slept` is the time that passed while the task slept and
    `signalPending` whether a signal awaits it on waking.
   */
  function Nanosleep(secArg: nat, nsecArg: nat, slept: nat, remPtr: nat, signalPending: bool): (r: (SysResult<int>, Option<TimeSecs>))
    ensures r.1.Some? <==> remPtr != 0
    ensures r.1.Some? ==> r.1.value == SleepRemainder(RequestedNanos(secArg, nsecArg), slept)
    ensures r.0 == if signalPending then Err(EINTR) else Ok(0)
  {
    var rem := if remPtr != 0 then Some(SleepRemainder(RequestedNanos(secArg, nsecArg), slept)) else None;
    (if signalPending then Err(EINTR) else Ok(0), rem)
  }

  /** The number of words before the first zero. */
  function ArgCount(words: seq<nat>): (n: nat)
    requires 0 in words
    ensures n < |words| && words[n] == 0
    ensures forall j :: 0 <= j < n ==> words[j] != 0
  {
    if words[0] == 0 then 0 else 1 + ArgCount(words[1..])
  }

  /**
    The pointer-advancing loop `execve` runs over `argv` (and `envp`): the
    string pointers before the terminating zero.
   */
  method CollectArgs(words: seq<nat>) returns (ptrs: seq<nat>)
    requires 0 in words
    ensures ptrs == words[..ArgCount(words)]
    ensures forall j :: 0 <= j < |ptrs| ==> ptrs[j] != 0
  {
    ptrs := [];
    var i := 0;
    while words[i] != 0
      invariant 0 <= i <= ArgCount(words)
      invariant ptrs == words[..i]
      decreases ArgCount(words) - i
    {
      ptrs := ptrs + [words[i]];
      i := i + 1;
    }
  }

  /** How `execve` ends: it returns a result, or the calling task exits with a code. */
  datatype ExecOutcome = Returned(result: SysResult<int>) | TaskExits(code: int)

  /** The resolved path `execve` runs: its text and whether it names a directory. */
  datatype ExecPath = ExecPath(path: string, isDir: bool)

  /**
    `execve`. `path` is the resolved path (`None` when it does not resolve);
    `argv` and `envp` are the words at the two pointers; `execSucceeds` is
    what `Process::exec` answers. Before the image is replaced, the
    executable path is recorded and every futex waiter of the process is
    dropped (`clear_wait` in leader mode).
   */
  method Execve(p: Process, futex: FutexTable, processOf: nat -> nat, path: Option<ExecPath>,
                argv: seq<nat>, envpPtr: nat, envp: seq<nat>, execSucceeds: bool) returns (r: ExecOutcome)
    requires 0 in argv
    requires envpPtr != 0 ==> 0 in envp
    modifies p`filePath, futex
    ensures path.None? ==> r == Returned(Err(EINVAL)) && p.filePath == old(p.filePath) && futex.waits == old(futex.waits)
    ensures path.Some? && path.value.isDir ==> r == Returned(Err(EISDIR)) && p.filePath == old(p.filePath) && futex.waits == old(futex.waits)
    ensures path.Some? && !path.value.isDir ==>
      && p.filePath == path.value.path
      && futex.waits == ClearWaitSpec(old(futex.waits), p.pid, true, processOf)
      && r == if execSucceeds then Returned(Ok(ArgCount(argv))) else TaskExits(0)
  {
    if path.None? {
      return Returned(Err(EINVAL));
    }
    if path.value.isDir {
      return Returned(Err(EISDIR));
    }
    var args := CollectArgs(argv);
    if envpPtr != 0 {
      var envs := CollectArgs(envp);
    }
    p.SetFilePath(path.value.path);
    futex.ClearWait(p.pid, true, processOf);
    var argc := |args|;
    if !execSucceeds {
      return TaskExits(0);
    }
    return Returned(Ok(argc));
  }

  const RLIMIT_STACK: int := 3
  const RLIMIT_NOFILE: int := 7
  const RLIMIT_AS: int := 9
  /** The address-space limit `prlimit64` reports. */
  const USER_MEMORY_LIMIT: nat := 0xffff_ffff

  datatype RLimit = RLimit(cur: nat, max: nat)

  /**
    One `prlimit64` on the caller (`own` when the pid is 0 or the caller's
    pid): the descriptor limit afterwards and the old limit reported (when
    `oldPtr` is not null). Only RLIMIT_NOFILE can be changed, by a non-null
    `newPtr` whose `rlim_cur` is `newCur`; the old limit is read before.
   */
  function PrlimitStep(limit: nat, own: bool, resource: int, newPtr: nat, newCur: nat, oldPtr: nat,
                       stackSize: nat): (r: (nat, Option<RLimit>))
    ensures !own || resource !in {RLIMIT_STACK, RLIMIT_NOFILE, RLIMIT_AS} ==> r == (limit, None)
    ensures r.0 != limit ==> own && resource == RLIMIT_NOFILE && newPtr != 0 && r.0 == newCur
    ensures r.1.Some? <==> own && resource in {RLIMIT_STACK, RLIMIT_NOFILE, RLIMIT_AS} && oldPtr != 0
    ensures r.1.Some? ==> r.1.value.cur == r.1.value.max
    ensures own && oldPtr != 0 && resource == RLIMIT_NOFILE ==> r.1 == Some(RLimit(limit, limit))
    ensures own && oldPtr != 0 && resource == RLIMIT_STACK ==> r.1 == Some(RLimit(stackSize, stackSize))
    ensures own && oldPtr != 0 && resource == RLIMIT_AS ==> r.1 == Some(RLimit(USER_MEMORY_LIMIT, USER_MEMORY_LIMIT))
  {
    if !own then (limit, None)
    else if resource == RLIMIT_STACK then
      (limit, if oldPtr != 0 then Some(RLimit(stackSize, stackSize)) else None)
    else if resource == RLIMIT_NOFILE then
      (if newPtr != 0 then newCur else limit, if oldPtr != 0 then Some(RLimit(limit, limit)) else None)
    else if resource == RLIMIT_AS then
      (limit, if oldPtr != 0 then Some(RLimit(USER_MEMORY_LIMIT, USER_MEMORY_LIMIT)) else None)
    else (limit, None)
  }

  /** Setting the descriptor limit and then querying it reports the new limit. */
  lemma PrlimitSetThenGet(limit: nat, newCur: nat, newPtr: nat, oldPtr: nat, stackSize: nat)
    requires newPtr != 0 && oldPtr != 0
    ensures var after := PrlimitStep(limit, true, RLIMIT_NOFILE, newPtr, newCur, 0, stackSize).0;
      PrlimitStep(after, true, RLIMIT_NOFILE, 0, 0, oldPtr, stackSize).1 == Some(RLimit(newCur, newCur))
  {
  }

  /**
    `prlimit64` on process `p`; `resourceArg` is read as an i32, and the
    result is always 0.
   */
  method Prlimit64(p: Process, pidArg: nat, resourceArg: nat, newPtr: nat, newCur: nat, oldPtr: nat,
                   stackSize: nat) returns (r: SysResult<int>, oldLimit: Option<RLimit>)
    modifies p.fdManager`limit
    ensures var step := PrlimitStep(old(p.fdManager.limit), pidArg == 0 || pidArg == p.pid, AsI32(resourceArg),
                                    newPtr, newCur, oldPtr, stackSize);
      p.fdManager.limit == step.0 && oldLimit == step.1 && r == Ok(0)
  {
    oldLimit := None;
    if pidArg == 0 || pidArg == p.pid {
      var resource := AsI32(resourceArg);
      if resource == RLIMIT_STACK {
        if oldPtr != 0 {
          oldLimit := Some(RLimit(stackSize, stackSize));
        }
      } else if resource == RLIMIT_NOFILE {
        if oldPtr != 0 {
          var limit := p.fdManager.limit;
          oldLimit := Some(RLimit(limit, limit));
        }
        if newPtr != 0 {
          p.fdManager.SetLimit(newCur);
        }
      } else if resource == RLIMIT_AS {
        if oldPtr != 0 {
          oldLimit := Some(RLimit(USER_MEMORY_LIMIT, USER_MEMORY_LIMIT));
        }
      }
    }
    return Ok(0), oldLimit;
  }

  /**
    `setsid` for `task`, a task of process `p`. A task whose id is the
    process id is refused (EPERM). Otherwise the task leaves `p`'s task list
    and becomes the only task, and the leader, of a new process with a fresh
    id from the task id counter, which inherits the parent, the heap bottom
    and a copy of the descriptor table. `fdLimit`, `newHeapTop` and `newPath`
    are the descriptor limit, heap top and executable path the body of
    `Process::new` gives the new process. The new process is registered
    under its pid.
   */
  method Setsid(reg: Registry, p: Process, task: TaskInner, counter: TaskIdCounter, fdLimit: nat,
                newHeapTop: nat, newPath: string)
    returns (r: SysResult<int>, np: Process?)
    modifies reg`pid2pc, p`tasks, task`isLeader, task`processId, counter
    ensures p.pid == task.id ==>
      && r == Err(EPERM) && np == null
      && reg.pid2pc == old(reg.pid2pc) && p.tasks == old(p.tasks)
      && task.isLeader == old(task.isLeader) && task.processId == old(task.processId)
      && counter.next == old(counter.next)
    ensures p.pid != task.id ==>
      && r == Ok(task.id) && np != null && fresh(np) && fresh(np.fdManager)
      && np.pid == old(counter.next) && counter.next == old(counter.next) + 1
      && np.parent == old(p.parent) && np.heapBottom == old(p.heapBottom)
      && np.heapTop == newHeapTop && np.filePath == newPath
      && np.fdManager.table == old(p.fdManager.table) && np.fdManager.limit == fdLimit
      && np.tasks == [task]
      && p.tasks == WithoutTask(old(p.tasks), task.id)
      && task.isLeader && task.processId == np.pid
      && reg.pid2pc == old(reg.pid2pc)[np.pid := np]
  {
    if p.pid == task.id {
      return Err(EPERM), null;
    }
    p.tasks := WithoutTask(p.tasks, task.id);
    var pid := counter.NewId();
    var fds := new FdTable(p.fdManager.table, fdLimit);
    np := new Process(pid, p.parent, p.heapBottom, newHeapTop, newPath, fds);
    np.tasks := [task];
    task.SetLeader(true);
    task.SetProcessId(np.pid);
    reg.pid2pc := reg.pid2pc[np.pid := np];
    return Ok(task.id), np;
  }
}
