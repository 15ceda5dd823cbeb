/**
  Per-task time accounting and the POSIX interval timer of a task
  (`TimeStat` in crates/taskctx/src/stat.rs).

  The functions on the value `TimeState` specify each transition; the class
  `TimeStat` holds the same eight fields and updates them in place, each of
  its methods proved to produce exactly the state its specification function
  computes. The properties the source promises are lemmas about the
  specification functions.
 */
module TimeStats {
  import opened Common

  /** `TimerType`, the `which` of setitimer/getitimer (repr i32). */
  datatype TimerType = NONE | REAL | VIRTUAL | PROF

  /** The i32 representation of each timer type. */
  function TimerTypeCode(t: TimerType): int
  {
    match t
    case NONE => -1
    case REAL => 0
    case VIRTUAL => 1
    case PROF => 2
  }

  /**
    `TimerType::from(usize)`: the argument is truncated to an i32 and decoded;
    every i32 that is not a timer code decodes to NONE.
   */
  function TimerTypeFrom(num: nat): (t: TimerType)
    ensures t != NONE <==> num % HALF_WORD in {0, 1, 2}
    ensures t != NONE ==> TimerTypeCode(t) == num % HALF_WORD
  {
    match AsI32(num)
    case 0 => REAL
    case 1 => VIRTUAL
    case 2 => PROF
    case _ => NONE
  }

  /** The signal number raised when a timer of each type expires (SIGALRM, SIGVTALRM, SIGPROF). */
  function TimerSignal(t: TimerType): (r: Option<nat>)
    ensures r.Some? <==> t != NONE
    ensures r.Some? ==> r.value in {14, 26, 27}
  {
    match t
    case REAL => Some(14)
    case VIRTUAL => Some(26)
    case PROF => Some(27)
    case NONE => None
  }

  /** The abstract value of a `TimeStat`: times and timestamps in nanoseconds. */
  datatype TimeState = TimeState(
    utime: nat,
    stime: nat,
    userTs: nat,
    kernelTs: nat,
    timerType: TimerType,
    interval: nat,
    remained: nat,
    pending: bool)

  /** Timer fields only: everything a timer operation may touch. */
  predicate SameTimer(a: TimeState, b: TimeState)
  {
    a.timerType == b.timerType && a.interval == b.interval
    && a.remained == b.remained && a.pending == b.pending
  }

  /** Accounting fields only. */
  predicate SameAccounting(a: TimeState, b: TimeState)
  {
    a.utime == b.utime && a.stime == b.stime && a.userTs == b.userTs && a.kernelTs == b.kernelTs
  }

  /** `TimeStat::new`: everything zero, no timer armed. */
  function InitialTimeState(): (s: TimeState)
    ensures s.utime == 0 && s.stime == 0 && s.timerType == NONE && !s.pending
  {
    TimeState(0, 0, 0, 0, NONE, 0, 0, false)
  }

  /** `output`: (user time, kernel time) in nanoseconds. */
  function TimeOutput(s: TimeState): (nat, nat)
  {
    (s.utime, s.stime)
  }

  /** `output_timer_as_us`: (interval, remaining) in microseconds, rounded down. */
  function TimerOutputUs(s: TimeState): (nat, nat)
  {
    (s.interval / 1000, s.remained / 1000)
  }

  /** `reset`: zeroes the accounting and restamps kernel entry; the timer is untouched. */
  function Reset(s: TimeState, ts: nat): (r: TimeState)
    ensures TimeOutput(r) == (0, 0) && r.userTs == 0 && r.kernelTs == ts
    ensures SameTimer(r, s)
  {
    s.(utime := 0, stime := 0, userTs := 0, kernelTs := ts)
  }

  /**
    `update_timer`: an expired timer (remaining 0) is left alone; a timer with
    more than `delta` left counts down; otherwise the signal becomes pending
    and the remaining time is kept until the signal is consumed.
   */
  function UpdateTimer(s: TimeState, delta: nat): (r: TimeState)
    ensures SameAccounting(r, s) && r.timerType == s.timerType && r.interval == s.interval
    ensures s.remained == 0 ==> r == s
    ensures s.remained > delta ==> r.remained + delta == s.remained && r.pending == s.pending
    ensures 0 < s.remained <= delta ==> r.pending && r.remained == s.remained
  {
    if s.remained == 0 then s
    else if s.remained > delta then s.(remained := s.remained - delta)
    else s.(pending := true)
  }

  /** `switch_into_kernel_mode`: the time since entering user mode is user time. */
  function SwitchIntoKernelMode(s: TimeState, now: nat): (r: TimeState)
    requires now >= s.userTs
    ensures r.utime == s.utime + (now - s.userTs) && r.stime == s.stime
    ensures r.kernelTs == now && r.userTs == s.userTs
    ensures s.timerType != NONE ==> SameTimer(r, UpdateTimer(s, now - s.userTs))
    ensures s.timerType == NONE ==> SameTimer(r, s)
  {
    var delta := now - s.userTs;
    var t := s.(utime := s.utime + delta, kernelTs := now);
    if s.timerType != NONE then UpdateTimer(t, delta) else t
  }

  /** REAL and PROF timers also count kernel time. */
  predicate CountsKernelTime(t: TimerType)
  {
    t == REAL || t == PROF
  }

  /** `switch_into_user_mode`: the time since entering the kernel is kernel time. */
  function SwitchIntoUserMode(s: TimeState, now: nat): (r: TimeState)
    requires now >= s.kernelTs
    ensures r.stime == s.stime + (now - s.kernelTs) && r.utime == s.utime
    ensures r.userTs == now && r.kernelTs == s.kernelTs
    ensures CountsKernelTime(s.timerType) ==> SameTimer(r, UpdateTimer(s, now - s.kernelTs))
    ensures !CountsKernelTime(s.timerType) ==> SameTimer(r, s)
  {
    var delta := now - s.kernelTs;
    var t := s.(stime := s.stime + delta, userTs := now);
    if CountsKernelTime(s.timerType) then UpdateTimer(t, delta) else t
  }

  /** `swtich_from_old_task`: the task is switched out while in the kernel. */
  function SwitchFromOldTask(s: TimeState, now: nat): (r: TimeState)
    requires now >= s.kernelTs
    ensures r.stime == s.stime + (now - s.kernelTs) && r.utime == s.utime
    ensures r.kernelTs == now && r.userTs == s.userTs
    ensures CountsKernelTime(s.timerType) ==> SameTimer(r, UpdateTimer(s, now - s.kernelTs))
    ensures !CountsKernelTime(s.timerType) ==> SameTimer(r, s)
  {
    var delta := now - s.kernelTs;
    var t := s.(stime := s.stime + delta, kernelTs := now);
    if CountsKernelTime(s.timerType) then UpdateTimer(t, delta) else t
  }

  /**
    `switch_to_new_task`: the task is switched in; only the kernel timestamp
    moves, and a REAL timer counts the time the task was switched out.
   */
  function SwitchToNewTask(s: TimeState, now: nat): (r: TimeState)
    requires now >= s.kernelTs
    ensures TimeOutput(r) == TimeOutput(s) && r.userTs == s.userTs && r.kernelTs == now
    ensures s.timerType == REAL ==> SameTimer(r, UpdateTimer(s, now - s.kernelTs))
    ensures s.timerType != REAL ==> SameTimer(r, s)
  {
    var delta := now - s.kernelTs;
    var t := s.(kernelTs := now);
    if s.timerType == REAL then UpdateTimer(t, delta) else t
  }

  /** `set_timer`: arms (or with an unknown type, disarms) the timer; true iff the type is known. */
  function SetTimer(s: TimeState, interval: nat, remained: nat, timerType: nat): (r: (TimeState, bool))
    ensures SameAccounting(r.0, s) && !r.0.pending
    ensures r.0.timerType == TimerTypeFrom(timerType)
    ensures r.1 <==> timerType % HALF_WORD in {0, 1, 2}
  {
    var t := TimerTypeFrom(timerType);
    (s.(timerType := t, interval := interval, remained := remained, pending := false), t != NONE)
  }

  /**
    `check_pending_timer_signal`: a pending signal is consumed exactly once;
    the timer is rearmed with its interval and the signal of its type returned.
   */
  function CheckPendingTimerSignal(s: TimeState): (r: (TimeState, Option<nat>))
    ensures !r.0.pending && SameAccounting(r.0, s)
    ensures r.0.timerType == s.timerType && r.0.interval == s.interval
    ensures s.pending ==> r.0.remained == s.interval && r.1 == TimerSignal(s.timerType)
    ensures !s.pending ==> r.0 == s && r.1 == None
  {
    if s.pending then (s.(pending := false, remained := s.interval), TimerSignal(s.timerType))
    else (s, None)
  }

  /** Every encoding round-trips through `TimerType::from`, NONE through the usize image of -1. */
  lemma TimerTypeRoundTrip(t: TimerType)
    ensures TimerTypeFrom((TimerTypeCode(t) + WORD) % WORD) == t
  {
  }

  /** Reading the timer right after setting it gives back the values set, in microseconds. */
  lemma SetTimerThenOutput(s: TimeState, interval: nat, remained: nat, timerType: nat)
    ensures TimerOutputUs(SetTimer(s, interval, remained, timerType).0) == (interval / 1000, remained / 1000)
    ensures CheckPendingTimerSignal(SetTimer(s, interval, remained, timerType).0).1 == None
  {
  }

  /** Two consecutive checks never both report a signal. */
  lemma CheckPendingOnce(s: TimeState)
    ensures CheckPendingTimerSignal(CheckPendingTimerSignal(s).0).1 == None
  {
  }

  /**
    An armed timer whose budget is used up raises its signal exactly once:
    after the check, the timer is running again with its full interval.
   */
  lemma ExpiryRaisesSignalOnce(s: TimeState, delta: nat)
    requires s.timerType != NONE && 0 < s.remained <= delta
    ensures var c := CheckPendingTimerSignal(UpdateTimer(s, delta));
      c.1 == TimerSignal(s.timerType) && c.1.Some? && c.0.remained == s.interval && !c.0.pending
  {
  }

  /** One accounting transition of a task (the four mode/switch events). */
  datatype Event = IntoKernel(now: nat) | IntoUser(now: nat) | FromOld(now: nat) | ToNew(now: nat)

  /** The clock never runs backwards relative to the timestamp the event reads. */
  predicate EventAllowed(s: TimeState, e: Event)
  {
    match e
    case IntoKernel(now) => now >= s.userTs
    case IntoUser(now) => now >= s.kernelTs
    case FromOld(now) => now >= s.kernelTs
    case ToNew(now) => now >= s.kernelTs
  }

  function Step(s: TimeState, e: Event): (r: TimeState)
    requires EventAllowed(s, e)
    ensures s.utime <= r.utime && s.stime <= r.stime
  {
    match e
    case IntoKernel(now) => SwitchIntoKernelMode(s, now)
    case IntoUser(now) => SwitchIntoUserMode(s, now)
    case FromOld(now) => SwitchFromOldTask(s, now)
    case ToNew(now) => SwitchToNewTask(s, now)
  }

  /** Whether a whole trace of events is allowed, event after event. */
  predicate TraceAllowed(s: TimeState, es: seq<Event>)
    decreases |es|
  {
    es == [] || (EventAllowed(s, es[0]) && TraceAllowed(Step(s, es[0]), es[1..]))
  }

  function Run(s: TimeState, es: seq<Event>): TimeState
    requires TraceAllowed(s, es)
    decreases |es|
  {
    if es == [] then s else Run(Step(s, es[0]), es[1..])
  }

  /** User and kernel time never decrease, over any allowed trace of transitions. */
  lemma {:induction false} AccountingMonotone(s: TimeState, es: seq<Event>)
    requires TraceAllowed(s, es)
    ensures s.utime <= Run(s, es).utime && s.stime <= Run(s, es).stime
    decreases |es|
  {
    if es != [] {
      AccountingMonotone(Step(s, es[0]), es[1..]);
    }
  }

}

/**
  The `TimeStat` object itself: the same fields, updated in place, each
  method proved to reach the state its specification in `TimeStats` computes.
 */
module TimeStatObject {
  import opened Common
  import opened TimeStats

  class TimeStat {
    var utimeNs: nat
    var stimeNs: nat
    var userTimestamp: nat
    var kernelTimestamp: nat
    var timerType: TimerType
    var timerIntervalNs: nat
    var timerRemainedNs: nat
    var pendingTimerSignal: bool

    function State(): TimeState
      reads this
    {
      TimeState(utimeNs, stimeNs, userTimestamp, kernelTimestamp, timerType,
                timerIntervalNs, timerRemainedNs, pendingTimerSignal)
    }

    constructor ()
      ensures State() == InitialTimeState()
    {
      utimeNs, stimeNs, userTimestamp, kernelTimestamp := 0, 0, 0, 0;
      timerType, timerIntervalNs, timerRemainedNs, pendingTimerSignal := NONE, 0, 0, false;
    }

    function Output(): (r: (nat, nat))
      reads this
      ensures r == (utimeNs, stimeNs)
    {
      TimeOutput(State())
    }

    function OutputTimerAsUs(): (r: (nat, nat))
      reads this
      ensures r.0 * 1000 <= timerIntervalNs < r.0 * 1000 + 1000
      ensures r.1 * 1000 <= timerRemainedNs < r.1 * 1000 + 1000
    {
      TimerOutputUs(State())
    }

    method Reset(ts: nat)
      modifies this
      ensures State() == TimeStats.Reset(old(State()), ts)
    {
      utimeNs := 0;
      stimeNs := 0;
      userTimestamp := 0;
      kernelTimestamp := ts;
    }

    method UpdateTimer(delta: nat)
      modifies this
      ensures State() == TimeStats.UpdateTimer(old(State()), delta)
    {
      if timerRemainedNs == 0 {
        return;
      }
      if timerRemainedNs > delta {
        timerRemainedNs := timerRemainedNs - delta;
        return;
      }
      pendingTimerSignal := true;
    }

    method SwitchIntoKernelMode(now: nat)
      requires now >= userTimestamp
      modifies this
      ensures State() == TimeStats.SwitchIntoKernelMode(old(State()), now)
    {
      var delta := now - userTimestamp;
      utimeNs := utimeNs + delta;
      kernelTimestamp := now;
      if timerType != NONE {
        UpdateTimer(delta);
      }
    }

    method SwitchIntoUserMode(now: nat)
      requires now >= kernelTimestamp
      modifies this
      ensures State() == TimeStats.SwitchIntoUserMode(old(State()), now)
    {
      var delta := now - kernelTimestamp;
      stimeNs := stimeNs + delta;
      userTimestamp := now;
      if timerType == REAL || timerType == PROF {
        UpdateTimer(delta);
      }
    }

    method SwitchFromOldTask(now: nat)
      requires now >= kernelTimestamp
      modifies this
      ensures State() == TimeStats.SwitchFromOldTask(old(State()), now)
    {
      var delta := now - kernelTimestamp;
      stimeNs := stimeNs + delta;
      kernelTimestamp := now;
      if timerType == REAL || timerType == PROF {
        UpdateTimer(delta);
      }
    }

    method SwitchToNewTask(now: nat)
      requires now >= kernelTimestamp
      modifies this
      ensures State() == TimeStats.SwitchToNewTask(old(State()), now)
    {
      var delta := now - kernelTimestamp;
      kernelTimestamp := now;
      if timerType == REAL {
        UpdateTimer(delta);
      }
    }

    method SetTimer(interval: nat, remained: nat, typeArg: nat) returns (ok: bool)
      modifies this
      ensures (State(), ok) == TimeStats.SetTimer(old(State()), interval, remained, typeArg)
    {
      timerType := TimerTypeFrom(typeArg);
      timerIntervalNs := interval;
      timerRemainedNs := remained;
      pendingTimerSignal := false;
      ok := timerType != NONE;
    }

    method CheckPendingTimerSignal() returns (signal: Option<nat>)
      modifies this
      ensures (State(), signal) == TimeStats.CheckPendingTimerSignal(old(State()))
    {
      if pendingTimerSignal {
        pendingTimerSignal := false;
        timerRemainedNs := timerIntervalNs;
        signal := TimerSignal(timerType);
      } else {
        signal := None;
      }
    }
  }
}
