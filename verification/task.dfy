/**
  The task record (`TaskInner` in crates/taskctx/src/task.rs): the task id
  counter, the state and scheduling-policy encodings, the defaults a task is
  built with, the nestable preemption counter, the CPU-affinity mask and the
  per-task fields the process layer reads and writes.

  Atomics and `UnsafeCell`s become plain mutable fields; each access is one
  step. The task's register context, kernel stack contents, entry closure,
  TLS area and time statistics object are left out (see README).
 */
module Tasks {
  import opened Common

  /** The global `ID_COUNTER` behind `TaskId::new`. */
  class TaskIdCounter {
    var next: nat

    constructor ()
      ensures next == 1
    {
      next := 1;
    }

    /** `TaskId::new`: hands out the counter's value and bumps it. */
    method NewId() returns (id: nat)
      modifies this
      ensures id == old(next) && next == id + 1
    {
      id := next;
      next := next + 1;
    }

    /** `TaskId::clear`: ids 1 to 4 stay reserved for the kernel's own tasks. */
    method Clear()
      modifies this
      ensures next == 5
    {
      next := 5;
    }
  }

  /** The possible states of a task; stored as a u8 code. */
  datatype TaskState = Running | Ready | Blocked | Exited

  function TaskStateCode(s: TaskState): nat
  {
    match s
    case Running => 1
    case Ready => 2
    case Blocked => 3
    case Exited => 4
  }

  /** `TaskState::from(u8)`; any other code is unreachable in the source. */
  function TaskStateFrom(code: nat): (s: TaskState)
    requires 1 <= code <= 4
    ensures TaskStateCode(s) == code
  {
    match code
    case 1 => Running
    case 2 => Ready
    case 3 => Blocked
    case 4 => Exited
  }

  /** `TaskState::from(s as u8) == s` for every state. */
  lemma TaskStateRoundTrip(s: TaskState)
    ensures 1 <= TaskStateCode(s) <= 4 && TaskStateFrom(TaskStateCode(s)) == s
  {
  }

  /** The scheduling policies. */
  datatype SchedPolicy = SCHED_OTHER | SCHED_FIFO | SCHED_RR | SCHED_BATCH | SCHED_IDLE | SCHED_UNKNOWN

  /** `From<usize> for SchedPolicy`: the five Linux policy numbers, all else UNKNOWN. */
  function SchedPolicyFrom(policy: nat): (p: SchedPolicy)
    ensures p != SCHED_UNKNOWN <==> policy in {0, 1, 2, 3, 5}
    ensures p != SCHED_UNKNOWN ==> SchedPolicyCode(p) == policy
  {
    match policy
    case 0 => SCHED_OTHER
    case 1 => SCHED_FIFO
    case 2 => SCHED_RR
    case 3 => SCHED_BATCH
    case 5 => SCHED_IDLE
    case _ => SCHED_UNKNOWN
  }

  /** `From<SchedPolicy> for isize`. */
  function SchedPolicyCode(p: SchedPolicy): (r: int)
    ensures r in {-1, 0, 1, 2, 3, 5}
    ensures r == -1 <==> p == SCHED_UNKNOWN
  {
    match p
    case SCHED_OTHER => 0
    case SCHED_FIFO => 1
    case SCHED_RR => 2
    case SCHED_BATCH => 3
    case SCHED_IDLE => 5
    case SCHED_UNKNOWN => -1
  }

  /** The two conversions are inverse on the known policies; UNKNOWN encodes as -1. */
  lemma SchedPolicyRoundTrip(p: SchedPolicy)
    ensures p != SCHED_UNKNOWN ==> SchedPolicyCode(p) >= 0 && SchedPolicyFrom(SchedPolicyCode(p)) == p
    ensures p == SCHED_UNKNOWN <==> SchedPolicyCode(p) == -1
  {
  }

  /** The scheduling status of a task: its policy and priority. */
  datatype SchedStatus = SchedStatus(policy: SchedPolicy, priority: nat)

  /** `preempt_disable_count.fetch_add(1)`: a usize that wraps around. */
  function PreemptInc(c: nat): (r: nat)
    requires c < WORD
    ensures r < WORD && (c + 1 < WORD ==> r == c + 1)
    ensures c + 1 == WORD ==> r == 0
  {
    (c + 1) % WORD
  }

  /** `preempt_disable_count.fetch_sub(1)`: on zero it wraps to usize::MAX. */
  function PreemptDec(c: nat): (r: nat)
    requires c < WORD
    ensures r < WORD && (c > 0 ==> r == c - 1) && (c == 0 ==> r == WORD - 1)
  {
    (c + WORD - 1) % WORD
  }

  /** A balanced disable/enable pair (in either order) restores the count. */
  lemma PreemptBalanced(c: nat)
    requires c < WORD
    ensures PreemptDec(PreemptInc(c)) == c
    ensures PreemptInc(PreemptDec(c)) == c
  {
  }

  /** `align_up_4k`. */
  function AlignUp4k(x: nat): (r: nat)
    ensures r % 4096 == 0 && x <= r < x + 4096
  {
    (x + 4095) / 4096 * 4096
  }

  /** The number of mask bits `set_cpu_set` considers: `min(set_size * 4, max_cpu_num)`. */
  function CpuSetLen(setSize: nat, maxCpuNum: nat): (r: nat)
    ensures r <= maxCpuNum && r <= setSize * 4
    ensures r == maxCpuNum || r == setSize * 4
  {
    if setSize * 4 > maxCpuNum then maxCpuNum else setSize * 4
  }

  /** `1 << k` on a 64-bit word, built from single-position shifts. */
  function Bit(k: nat): bv64
    requires k < 64
  {
    if k == 0 then 1 else Bit(k - 1) << 1
  }

  /** A word with at most one bit set. */
  predicate AtMostOneBit(b: bv64)
  {
    b & (b - 1) == 0
  }

  /** Masking by a word with at most one bit keeps all of it or none of it. */
  lemma AtMostOneBitMask(b: bv64, x: bv64)
    requires AtMostOneBit(b)
    ensures x & b == 0 || x & b == b
  {
  }

  /** Shifting left by one keeps at most one bit. */
  lemma AtMostOneBitShift(b: bv64)
    requires AtMostOneBit(b)
    ensures AtMostOneBit(b << 1)
  {
  }

  /** `1 << k` has at most one bit set. */
  lemma {:induction false} BitIsSingle(k: nat)
    requires k < 64
    ensures AtMostOneBit(Bit(k))
  {
    if k > 0 {
      BitIsSingle(k - 1);
      AtMostOneBitShift(Bit(k - 1));
    }
  }

  /** Masking a word a second time by the same word changes nothing. */
  lemma AndAbsorbs(a: bv64, b: bv64)
    ensures (a & b) & a == a & b
  {
  }

  /** `mask & 1 << k`: at most bit `k` of the mask survives. */
  function MaskBit(mask: bv64, k: nat): (r: bv64)
    requires k < 64
    ensures r & mask == r
    ensures r == 0 || r == Bit(k)
  {
    var b := Bit(k);
    AndAbsorbs(mask, b);
    BitIsSingle(k);
    AtMostOneBitMask(b, mask);
    mask & b
  }

  /**
    The mask `set_cpu_set` stores: `mask & 1 << (len - 1)`. Shift binds
    tighter than `&`, so only bit `len - 1` of the mask can survive.
   */
  function CpuSetMask(mask: bv64, setSize: nat, maxCpuNum: nat): (r: bv64)
    requires 1 <= CpuSetLen(setSize, maxCpuNum) <= 64
    ensures r & mask == r
    ensures r == 0 || r == Bit(CpuSetLen(setSize, maxCpuNum) - 1)
  {
    MaskBit(mask, CpuSetLen(setSize, maxCpuNum) - 1)
  }

  /** `TaskInner`: the per-task record. */
  class TaskInner {
    const id: nat
    var name: string
    var isIdle: bool
    var isInit: bool
    /** The u8 code of the task's `TaskState`. */
    var state: nat
    var needResched: bool
    var preemptDisableCount: nat
    var exitCode: int
    /** The size of the kernel stack, once one is allocated. */
    var kstackSize: Option<nat>
    var processId: nat
    var isLeader: bool
    var pageTableToken: nat
    var setChildTid: nat
    var clearChildTid: nat
    var cpuSet: bv64
    var sendSigchldWhenExit: bool
    var schedStatus: SchedStatus
    var isVforkedChild: bool

    ghost predicate Valid()
      reads this
    {
      1 <= state <= 4 && preemptDisableCount < WORD
    }

    /** The fields `new_common` sets, other than the id and the name. */
    ghost predicate CommonDefaults()
      reads this
    {
      && Valid() && State() == Ready && exitCode == 0 && preemptDisableCount == 0
      && !needResched && !isLeader && processId == 0 && cpuSet == 0
      && pageTableToken == 0 && setChildTid == 0 && clearChildTid == 0
      && schedStatus == SchedStatus(SCHED_FIFO, 1) && !isVforkedChild
    }

    /** `TaskInner::new` (monolithic): a fresh id, a 4 KiB-aligned kernel stack, a Ready task. */
    constructor New(counter: TaskIdCounter, name: string, stackSize: nat, processId: nat,
                    pageTableToken: nat, sigChild: bool)
      modifies counter
      ensures id == old(counter.next) && counter.next == id + 1
      ensures this.name == name && this.isIdle == (name == "idle") && !isInit
      ensures kstackSize == Some(AlignUp4k(stackSize))
      ensures sendSigchldWhenExit == sigChild
      ensures this.processId == processId && this.pageTableToken == pageTableToken
      ensures Valid() && State() == Ready && exitCode == 0 && preemptDisableCount == 0
      ensures !needResched && !isLeader && cpuSet == 0 && setChildTid == 0 && clearChildTid == 0
      ensures schedStatus == SchedStatus(SCHED_FIFO, 1) && !isVforkedChild
    {
      var newId := counter.NewId();
      id := newId;
      this.name := name;
      isIdle := name == "idle";
      isInit := false;
      state := TaskStateCode(Ready);
      needResched := false;
      preemptDisableCount := 0;
      exitCode := 0;
      kstackSize := Some(AlignUp4k(stackSize));
      this.processId := processId;
      isLeader := false;
      this.pageTableToken := pageTableToken;
      setChildTid := 0;
      clearChildTid := 0;
      cpuSet := 0;
      sendSigchldWhenExit := sigChild;
      schedStatus := SchedStatus(SCHED_FIFO, 1);
      isVforkedChild := false;
    }

    /** `TaskInner::new_init`: the task standing for the boot context of a CPU. */
    constructor NewInit(counter: TaskIdCounter, name: string)
      modifies counter
      ensures id == old(counter.next) && counter.next == id + 1
      ensures this.name == name && this.isIdle == (name == "idle") && isInit
      ensures kstackSize == None && !sendSigchldWhenExit
      ensures CommonDefaults()
    {
      var newId := counter.NewId();
      id := newId;
      this.name := name;
      isIdle := name == "idle";
      isInit := true;
      state := TaskStateCode(Ready);
      needResched := false;
      preemptDisableCount := 0;
      exitCode := 0;
      kstackSize := None;
      processId := 0;
      isLeader := false;
      pageTableToken := 0;
      setChildTid := 0;
      clearChildTid := 0;
      cpuSet := 0;
      sendSigchldWhenExit := false;
      schedStatus := SchedStatus(SCHED_FIFO, 1);
      isVforkedChild := false;
    }

    /** `state()`: the stored code decoded. */
    function State(): (s: TaskState)
      reads this
      requires 1 <= state <= 4
      ensures TaskStateCode(s) == state
    {
      TaskStateFrom(state)
    }

    method SetState(s: TaskState)
      modifies this`state
      ensures 1 <= state <= 4 && State() == s
    {
      state := TaskStateCode(s);
    }

    /** `can_preempt`: the disable count equals the one the caller holds. */
    predicate CanPreempt(currentDisableCount: nat)
      reads this
      ensures CanPreempt(currentDisableCount) && preemptDisableCount < WORD ==>
        && PreemptInc(preemptDisableCount) != currentDisableCount
        && PreemptDec(preemptDisableCount) != currentDisableCount
    {
      preemptDisableCount == currentDisableCount
    }

    method DisablePreempt()
      requires preemptDisableCount < WORD
      modifies this`preemptDisableCount
      ensures preemptDisableCount == PreemptInc(old(preemptDisableCount))
    {
      preemptDisableCount := (preemptDisableCount + 1) % WORD;
    }

    method EnablePreempt()
      requires preemptDisableCount < WORD
      modifies this`preemptDisableCount
      ensures preemptDisableCount == PreemptDec(old(preemptDisableCount))
    {
      preemptDisableCount := (preemptDisableCount + WORD - 1) % WORD;
    }

    method SetPreemptPending(pending: bool)
      modifies this`needResched
      ensures needResched == pending
    {
      needResched := pending;
    }

    method SetExitCode(code: int)
      requires -0x8000_0000 <= code < 0x8000_0000
      modifies this`exitCode
      ensures exitCode == code
    {
      exitCode := code;
    }

    method SetLeader(isLead: bool)
      modifies this`isLeader
      ensures isLeader == isLead
    {
      isLeader := isLead;
    }

    method SetProcessId(pid: nat)
      modifies this`processId
      ensures processId == pid
    {
      processId := pid;
    }

    method SetSchedStatus(status: SchedStatus)
      modifies this`schedStatus
      ensures schedStatus == status
    {
      schedStatus := status;
    }

    /** `set_cpu_set`: `set_size` is the byte length of the user's CPU set. */
    method SetCpuSet(mask: bv64, setSize: nat, maxCpuNum: nat)
      requires 1 <= CpuSetLen(setSize, maxCpuNum) <= 64
      modifies this`cpuSet
      ensures cpuSet == CpuSetMask(mask, setSize, maxCpuNum)
    {
      cpuSet := CpuSetMask(mask, setSize, maxCpuNum);
    }

    method SetVforkChild(isVforkChild: bool)
      modifies this`isVforkedChild
      ensures isVforkedChild == isVforkChild
    {
      isVforkedChild := isVforkChild;
    }

    method SetSigChild(sigChild: bool)
      modifies this`sendSigchldWhenExit
      ensures sendSigchldWhenExit == sigChild
    {
      sendSigchldWhenExit := sigChild;
    }

    method SetChildTid(tid: nat)
      modifies this`setChildTid
      ensures setChildTid == tid
    {
      setChildTid := tid;
    }

    method SetClearChildTid(tid: nat)
      modifies this`clearChildTid
      ensures clearChildTid == tid
    {
      clearChildTid := tid;
    }

    method SetPageTableToken(token: nat)
      modifies this`pageTableToken
      ensures pageTableToken == token
    {
      pageTableToken := token;
    }

    method SetName(newName: string)
      modifies this`name
      ensures name == newName
    {
      name := newName;
    }
  }
}
