/**
  The scheduler's side tables (modules/axtask/src/schedule.rs): the map from
  a task id to the queue of tasks waiting for that task to exit, and the two
  membership sets recording which tasks sit in the timer list and which in a
  wait queue. Tasks are identified by their numeric id.
 */
module Schedule {
  import opened Common

  /**
    A queue of tasks blocked until some task exits. Its contents belong to the
    run queue, which is not part of this model; only its identity matters here.
   */
  class WaitQueue {
    constructor ()
    {
    }
  }

  class SchedTables {
    /** `WAIT_FOR_TASK_EXITS` */
    var waitForExit: map<nat, WaitQueue>
    /** `TASK_IN_TIME_LIST` */
    var inTimeList: set<nat>
    /** `TASK_IN_WAIT_QUEUE` */
    var inWaitQueue: set<nat>

    constructor ()
      ensures waitForExit == map[] && inTimeList == {} && inWaitQueue == {}
    {
      waitForExit := map[];
      inTimeList := {};
      inWaitQueue := {};
    }

    /** `in_timer_list` */
    predicate InTimerList(tid: nat)
      reads this
    {
      tid in inTimeList
    }

    /** `in_wait_queue` */
    predicate InWaitQueue(tid: nat)
      reads this
    {
      tid in inWaitQueue
    }

    /** `get_wait_for_exit_queue`: the queue registered for the task, if any. */
    function GetWaitForExitQueue(tid: nat): (q: Option<WaitQueue>)
      reads this
      ensures q.Some? <==> tid in waitForExit
      ensures q.Some? ==> q.value == waitForExit[tid]
    {
      if tid in waitForExit then Some(waitForExit[tid]) else None
    }

    /** `add_to_timer_list`: the task is in the timer list; no other id changes. */
    method AddToTimerList(tid: nat)
      modifies this`inTimeList
      ensures InTimerList(tid)
      ensures forall t :: t != tid ==> (InTimerList(t) <==> old(InTimerList(t)))
    {
      inTimeList := inTimeList + {tid};
    }

    /** `remove_from_timer_list`: the task is no longer in the timer list; removing twice is removing once. */
    method RemoveFromTimerList(tid: nat)
      modifies this`inTimeList
      ensures !InTimerList(tid)
      ensures forall t :: t != tid ==> (InTimerList(t) <==> old(InTimerList(t)))
      ensures !old(InTimerList(tid)) ==> inTimeList == old(inTimeList)
    {
      inTimeList := inTimeList - {tid};
    }

    /** `add_to_wait_queue`: the task is recorded as waiting; no other id changes. */
    method AddToWaitQueue(tid: nat)
      modifies this`inWaitQueue
      ensures InWaitQueue(tid)
      ensures forall t :: t != tid ==> (InWaitQueue(t) <==> old(InWaitQueue(t)))
    {
      inWaitQueue := inWaitQueue + {tid};
    }

    /** `remove_from_wait_queue`: the task is no longer recorded; removing twice is removing once. */
    method RemoveFromWaitQueue(tid: nat)
      modifies this`inWaitQueue
      ensures !InWaitQueue(tid)
      ensures forall t :: t != tid ==> (InWaitQueue(t) <==> old(InWaitQueue(t)))
      ensures !old(InWaitQueue(tid)) ==> inWaitQueue == old(inWaitQueue)
    {
      inWaitQueue := inWaitQueue - {tid};
    }

    /** `add_wait_for_exit_queue`: a fresh queue replaces any earlier one for the task; other ids keep theirs. */
    method AddWaitForExitQueue(tid: nat)
      modifies this`waitForExit
      ensures GetWaitForExitQueue(tid).Some? && fresh(GetWaitForExitQueue(tid).value)
      ensures forall t :: t != tid ==> GetWaitForExitQueue(t) == old(GetWaitForExitQueue(t))
    {
      var q := new WaitQueue();
      waitForExit := waitForExit[tid := q];
    }

    /**
      `notify_wait_for_exit`: the task's queue is removed and handed back for
      `notify_all`, which happens only when a queue was registered; the other
      ids keep their queues.
     */
    method NotifyWaitForExit(tid: nat) returns (notified: Option<WaitQueue>)
      modifies this`waitForExit
      ensures notified == old(GetWaitForExitQueue(tid))
      ensures GetWaitForExitQueue(tid).None?
      ensures forall t :: t != tid ==> GetWaitForExitQueue(t) == old(GetWaitForExitQueue(t))
    {
      if tid in waitForExit {
        notified := Some(waitForExit[tid]);
        waitForExit := map t | t in waitForExit && t != tid :: waitForExit[t];
      } else {
        notified := None;
      }
    }
  }
}
