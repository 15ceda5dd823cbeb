/**
  api/linux_syscall_api/src/syscall_task/imp/schedule.rs: the CPU-affinity
  and scheduling-policy system calls. Each names its target the same way:
  a task id first, then a process id (its leader task), then 0 for the
  calling task. Whether a user pointer can be faulted in is a parameter, and
  so is the word the user buffer holds before `sched_getaffinity` writes it.
 */
module SchedSyscalls {
  import opened Common
  import opened Tasks
  import opened Processes

  /** The tasks of process `pid`, when the registry has it. */
  function ProcessTasks(reg: Registry, pid: nat): seq<TaskInner>
    reads reg, if pid in reg.pid2pc then {reg.pid2pc[pid]} else {}
  {
    if pid in reg.pid2pc then reg.pid2pc[pid].tasks else []
  }

  /**
    The task a `pid` argument names: the task with that id; otherwise the
    first leader task of the process with that id, whose absence panics
    (`unwrap`); otherwise, for 0, the calling task; otherwise ESRCH.
   */
  function ResolveTarget(reg: Registry, pid: nat, current: TaskInner): (r: SysResult<TaskInner>)
    reads reg, if pid in reg.pid2pc then {reg.pid2pc[pid]} else {}
    reads ProcessTasks(reg, pid)`isLeader
    ensures pid in reg.tid2task ==> r == Ok(reg.tid2task[pid])
    ensures pid !in reg.tid2task && pid in reg.pid2pc ==>
      && (r.Panic? <==> forall i :: 0 <= i < |reg.pid2pc[pid].tasks| ==> !reg.pid2pc[pid].tasks[i].isLeader)
      && (r.Ok? ==> r.value in reg.pid2pc[pid].tasks && r.value.isLeader)
      && (r.Ok? ==> FirstLeader(reg.pid2pc[pid].tasks) == Some(r.value))
      && (r.Panic? || r.Ok?)
    ensures pid !in reg.tid2task && pid !in reg.pid2pc ==> r == if pid == 0 then Ok(current) else Err(ESRCH)
  {
    if pid in reg.tid2task then Ok(reg.tid2task[pid])
    else if pid in reg.pid2pc then
      match FirstLeader(reg.pid2pc[pid].tasks)
      case Some(t) => Ok(t)
      case None => Panic
    else if pid == 0 then Ok(current)
    else Err(ESRCH)
  }

  /** The target, or nothing when the resolution fails; what a call on `pid` may change. */
  function TargetFrame(reg: Registry, pid: nat, current: TaskInner): set<TaskInner>
    reads reg, if pid in reg.pid2pc then {reg.pid2pc[pid]} else {}
    reads ProcessTasks(reg, pid)`isLeader
  {
    var t := ResolveTarget(reg, pid, current);
    if t.Ok? then {t.value} else {}
  }

  /**
    The policy and priority `sched_setscheduler` accepts: a known policy;
    priority 0 for SCHED_OTHER, SCHED_BATCH and SCHED_IDLE; 1 to 99 for
    SCHED_FIFO and SCHED_RR. Everything else is EINVAL.
   */
  function ValidateSchedParam(policyArg: nat, priority: int): (r: SysResult<SchedStatus>)
    ensures r.Ok? || r == Err(EINVAL)
    ensures r.Ok? <==>
      && SchedPolicyFrom(policyArg) != SCHED_UNKNOWN
      && (SchedPolicyFrom(policyArg) in {SCHED_OTHER, SCHED_BATCH, SCHED_IDLE} ==> priority == 0)
      && (SchedPolicyFrom(policyArg) in {SCHED_FIFO, SCHED_RR} ==> 1 <= priority <= 99)
    ensures r.Ok? ==> SchedPolicyCode(r.value.policy) == policyArg && r.value.priority == priority
  {
    var policy := SchedPolicyFrom(policyArg);
    if policy == SCHED_UNKNOWN then Err(EINVAL)
    else if policy == SCHED_OTHER || policy == SCHED_BATCH || policy == SCHED_IDLE then
      (if priority != 0 then Err(EINVAL) else Ok(SchedStatus(policy, 0)))
    else if priority < 1 || priority > 99 then Err(EINVAL)
    else Ok(SchedStatus(policy, priority))
  }

  /** `sched_getscheduler`: the policy number of the target task. */
  function SchedGetscheduler(reg: Registry, pidArg: nat, current: TaskInner): (r: SysResult<int>)
    requires pidArg < WORD
    reads reg, if pidArg in reg.pid2pc then {reg.pid2pc[pidArg]} else {}
    reads ProcessTasks(reg, pidArg)`isLeader
    reads TargetFrame(reg, pidArg, current)`schedStatus
    ensures AsIsize(pidArg) < 0 ==> r == Err(EINVAL)
    ensures AsIsize(pidArg) >= 0 ==>
      var t := ResolveTarget(reg, pidArg, current);
      && (t.Err? ==> r == Err(t.errno))
      && (t.Panic? ==> r == Panic)
      && (t.Ok? ==> r == Ok(SchedPolicyCode(t.value.schedStatus.policy)))
  {
    if AsIsize(pidArg) < 0 then Err(EINVAL)
    else match ResolveTarget(reg, pidArg, current)
      case Err(e) => Err(e)
      case Panic => Panic
      case Ok(t) => Ok(SchedPolicyCode(t.schedStatus.policy))
  }

  /**
    `sched_setscheduler`. `paramPtr` is the address of the parameter block,
    `paramMapped` whether it can be faulted in, and `priority` the
    `sched_priority` it holds. Only the target's scheduling status changes,
    and a later `sched_getscheduler` on the same pid reports the policy set.
   */
  method SchedSetscheduler(reg: Registry, current: TaskInner, pidArg: nat, policyArg: nat,
                           paramPtr: nat, paramMapped: bool, priority: int) returns (r: SysResult<int>)
    requires pidArg < WORD
    modifies TargetFrame(reg, pidArg, current)`schedStatus
    ensures AsIsize(pidArg) < 0 || paramPtr == 0 ==> r == Err(EINVAL)
    ensures AsIsize(pidArg) >= 0 && paramPtr != 0 ==>
      var t := old(ResolveTarget(reg, pidArg, current));
      && (t.Err? ==> r == Err(t.errno))
      && (t.Panic? ==> r == Panic)
      && (t.Ok? && !paramMapped ==> r == Err(EFAULT))
      && (t.Ok? && paramMapped ==>
            var v := ValidateSchedParam(policyArg, priority);
            && (v.Err? ==> r == Err(v.errno) && t.value.schedStatus == old(t.value.schedStatus))
            && (v.Ok? ==> r == Ok(0) && t.value.schedStatus == v.value))
    ensures var t := old(ResolveTarget(reg, pidArg, current));
      t.Ok? && r != Ok(0) ==> t.value.schedStatus == old(t.value.schedStatus)
    ensures r == Ok(0) ==> SchedGetscheduler(reg, pidArg, current) == Ok(policyArg)
  {
    if AsIsize(pidArg) < 0 || paramPtr == 0 {
      return Err(EINVAL);
    }
    var target := ResolveTarget(reg, pidArg, current);
    if target.Err? {
      return Err(target.errno);
    }
    if target.Panic? {
      return Panic;
    }
    if !paramMapped {
      return Err(EFAULT);
    }
    var v := ValidateSchedParam(policyArg, priority);
    if !v.Ok? {
      return Err(EINVAL);
    }
    target.value.SetSchedStatus(v.value);
    return Ok(0);
  }

  /** `(1 << len) - 1`: the low `len` bits. */
  function LowMask(len: nat): bv64
    requires len < 64
  {
    Bit(len) - 1
  }

  /** The mask `sched_getaffinity` writes, as written: two `&=` where the second was meant to be `|=`. */
  function AffinityMaskAsWritten(prev: bv64, cpuSet: bv64, low: bv64): (r: bv64)
    ensures r & low == 0
    ensures r & !low == 0
  {
    (prev & !low) & (cpuSet & low)
  }

  /** The intended mask: the caller's bits above `low` kept, the task's CPU set below it. */
  function AffinityMask(prev: bv64, cpuSet: bv64, low: bv64): (r: bv64)
    ensures r & low == cpuSet & low
    ensures r & !low == prev & !low
  {
    (prev & !low) | (cpuSet & low)
  }

  /** As written, the mask keeps no bit at all, whatever the task's CPU set. */
  lemma AffinityAsWrittenIsZero(prev: bv64, cpuSet: bv64, low: bv64)
    ensures AffinityMaskAsWritten(prev, cpuSet, low) == 0
  {
  }

  /** A task pinned to CPU 0, queried with an empty buffer over one CPU: 0 as written, 1 as intended. */
  lemma AffinityCounterexample()
    ensures AffinityMaskAsWritten(0, 1, LowMask(1)) == 0
    ensures AffinityMask(0, 1, LowMask(1)) == 1
  {
    assert LowMask(1) == 1;
  }

  /**
    `sched_getaffinity` with the intended mask. `smp` is the configured CPU
    count, `prevMask` the word at `mask` before the call. On success the
    result is the CPU count and the word written.
   */
  function SchedGetaffinity(reg: Registry, pidArg: nat, current: TaskInner, setSize: nat, smp: nat,
                            maskMapped: bool, prevMask: bv64): (r: SysResult<(int, bv64)>)
    requires smp < 64
    reads reg, if pidArg in reg.pid2pc then {reg.pid2pc[pidArg]} else {}
    reads ProcessTasks(reg, pidArg)`isLeader
    reads TargetFrame(reg, pidArg, current)`cpuSet
    ensures var t := ResolveTarget(reg, pidArg, current);
      && (t.Err? ==> r == Err(t.errno))
      && (t.Panic? ==> r == Panic)
      && (t.Ok? && !maskMapped ==> r == Err(EFAULT))
      && (t.Ok? && maskMapped ==>
            r == Ok((smp, AffinityMask(prevMask, t.value.cpuSet, LowMask(CpuSetLen(setSize, smp))))))
  {
    match ResolveTarget(reg, pidArg, current)
    case Err(e) => Err(e)
    case Panic => Panic
    case Ok(t) =>
      if !maskMapped then Err(EFAULT)
      else Ok((smp, AffinityMask(prevMask, t.cpuSet, LowMask(CpuSetLen(setSize, smp)))))
  }

  /**
    `sched_setaffinity`: stores the mask through `set_cpu_set`. A CPU-set
    size of 0 makes the bit count 0 and `len - 1` underflows, a panic.
   */
  method SchedSetaffinity(reg: Registry, current: TaskInner, pidArg: nat, setSize: nat, smp: nat,
                          maskMapped: bool, mask: bv64) returns (r: SysResult<int>)
    requires smp < 64
    modifies TargetFrame(reg, pidArg, current)`cpuSet
    ensures var t := old(ResolveTarget(reg, pidArg, current));
      && (t.Err? ==> r == Err(t.errno))
      && (t.Panic? ==> r == Panic)
      && (t.Ok? && !maskMapped ==> r == Err(EFAULT))
      && (t.Ok? && maskMapped && CpuSetLen(setSize, smp) == 0 ==> r == Panic)
      && (t.Ok? && maskMapped && CpuSetLen(setSize, smp) != 0 ==>
            r == Ok(0) && t.value.cpuSet == CpuSetMask(mask, setSize, smp))
    ensures var t := old(ResolveTarget(reg, pidArg, current));
      t.Ok? && r != Ok(0) ==> t.value.cpuSet == old(t.value.cpuSet)
  {
    var target := ResolveTarget(reg, pidArg, current);
    if target.Err? {
      return Err(target.errno);
    }
    if target.Panic? {
      return Panic;
    }
    if !maskMapped {
      return Err(EFAULT);
    }
    if CpuSetLen(setSize, smp) == 0 {
      return Panic;
    }
    target.value.SetCpuSet(mask, setSize, smp);
    return Ok(0);
  }

  /**
    After `sched_setaffinity` stores `CpuSetMask(mask, …)`, the intended
    `sched_getaffinity` with the same set size reads the stored bit back:
    the mask stored lies within the low bits the query reports.
   */
  lemma AffinityReadBack(prev: bv64, mask: bv64, setSize: nat, smp: nat)
    requires smp < 64 && CpuSetLen(setSize, smp) >= 1
    ensures var stored := CpuSetMask(mask, setSize, smp);
      AffinityMask(prev, stored, LowMask(CpuSetLen(setSize, smp))) & LowMask(CpuSetLen(setSize, smp)) == stored
  {
    var len := CpuSetLen(setSize, smp);
    BitBelowLow(len - 1);
  }

  /** A word that lies within the bits below its own double. */
  predicate BelowDouble(b: bv64)
  {
    b & ((b << 1) - 1) == b
  }

  /** If a word lies within the bits below its double, so does its double. */
  lemma DoubleBelowLow(b: bv64)
    requires BelowDouble(b)
    ensures BelowDouble(b << 1)
  {
    assert ((b << 1) << 1) - 1 == (((b << 1) - 1) << 1) | 1;
  }

  /** Bit `k` lies within the low `k + 1` bits. */
  lemma {:induction false} BitBelowLow(k: nat)
    requires k < 63
    ensures Bit(k) & LowMask(k + 1) == Bit(k)
  {
    BitBelowDouble(k);
    assert Bit(k + 1) == Bit(k) << 1;
  }

  /** Bit `k` lies within the bits below its double. */
  lemma {:induction false} BitBelowDouble(k: nat)
    requires k < 63
    ensures BelowDouble(Bit(k))
  {
    if k == 0 {
      assert Bit(0) == 1;
    } else {
      BitBelowDouble(k - 1);
      DoubleBelowLow(Bit(k - 1));
    }
  }
}
