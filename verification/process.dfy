/**
  The process record and the two global registries the system calls consult:
  `PID2PC` (process id to process) and `TID2TASK` (task id to task).
  `Process` keeps the fields the modelled calls read or write: its tasks,
  its parent, the heap bounds, the executable path and the descriptor table.
  The body of `Process::new` lives outside the modelled files; the constructor
  below records only what its callers pass in.
 */
module Processes {
  import opened Common
  import opened Tasks
  import opened FdTables

  class Process {
    const pid: nat
    var parent: nat
    var tasks: seq<TaskInner>
    var heapBottom: nat
    var heapTop: nat
    var filePath: string
    /** `fd_manager`: the descriptor table and its limit. */
    const fdManager: FdTable

    /**
      The pid, parent, heap bottom and descriptor table are the arguments of
      `Process::new`; the heap top and executable path it starts with come
      from its body, which is not part of this model, and are passed in.
     */
    constructor (pid: nat, parent: nat, heapBottom: nat, heapTop: nat, filePath: string, fdManager: FdTable)
      ensures this.pid == pid && this.parent == parent && this.fdManager == fdManager
      ensures this.heapBottom == heapBottom && this.heapTop == heapTop
      ensures this.tasks == [] && this.filePath == filePath
    {
      this.pid := pid;
      this.parent := parent;
      this.heapBottom := heapBottom;
      this.heapTop := heapTop;
      this.fdManager := fdManager;
      this.tasks := [];
      this.filePath := filePath;
    }

    /** `set_heap_top` */
    method SetHeapTop(top: nat)
      modifies this`heapTop
      ensures heapTop == top
    {
      heapTop := top;
    }

    /** `set_file_path` */
    method SetFilePath(path: string)
      modifies this`filePath
      ensures filePath == path
    {
      filePath := path;
    }
  }

  /** `PID2PC` and `TID2TASK`. */
  class Registry {
    var pid2pc: map<nat, Process>
    var tid2task: map<nat, TaskInner>

    constructor ()
      ensures pid2pc == map[] && tid2task == map[]
    {
      pid2pc := map[];
      tid2task := map[];
    }
  }

  /** `tasks.iter().find(|task| task.is_leader())`: the first task flagged as leader. */
  function FirstLeader(tasks: seq<TaskInner>): (r: Option<TaskInner>)
    reads tasks`isLeader
    ensures r.None? <==> forall i :: 0 <= i < |tasks| ==> !tasks[i].isLeader
    ensures r.Some? ==>
      exists i :: 0 <= i < |tasks| && tasks[i] == r.value && r.value.isLeader && (forall j :: 0 <= j < i ==> !tasks[j].isLeader)
    decreases |tasks|
  {
    if tasks == [] then None
    else if tasks[0].isLeader then Some(tasks[0])
    else
      var rest := FirstLeader(tasks[1..]);
      if rest.Some? then
        ghost var k :| 0 <= k < |tasks[1..]| && tasks[1..][k] == rest.value && rest.value.isLeader
          && forall j :: 0 <= j < k ==> !tasks[1..][j].isLeader;
        assert tasks[k + 1] == rest.value;
        rest
      else rest
  }

  /** `tasks.retain(|t| t.id() != id)`: the task list without the task `id`, in the same order. */
  function WithoutTask(tasks: seq<TaskInner>, id: nat): (r: seq<TaskInner>)
    ensures forall i :: 0 <= i < |r| ==> r[i] in tasks && r[i].id != id
    ensures forall i :: 0 <= i < |tasks| && tasks[i].id != id ==> tasks[i] in r
    ensures |r| <= |tasks|
    decreases |tasks|
  {
    if tasks == [] then []
    else if tasks[0].id == id then WithoutTask(tasks[1..], id)
    else [tasks[0]] + WithoutTask(tasks[1..], id)
  }

  /** `retain` distributes over concatenation: the survivors keep their relative order. */
  lemma {:induction false} WithoutTaskConcat(a: seq<TaskInner>, b: seq<TaskInner>, id: nat)
    ensures WithoutTask(a + b, id) == WithoutTask(a, id) + WithoutTask(b, id)
    decreases |a|
  {
    if a == [] {
      assert a + b == b;
    } else {
      assert (a + b)[1..] == a[1..] + b;
      WithoutTaskConcat(a[1..], b, id);
    }
  }

  /** A list without the task `id` is kept as it is, order included. */
  lemma {:induction false} WithoutAbsentTask(tasks: seq<TaskInner>, id: nat)
    requires forall i :: 0 <= i < |tasks| ==> tasks[i].id != id
    ensures WithoutTask(tasks, id) == tasks
    decreases |tasks|
  {
    if tasks != [] {
      WithoutAbsentTask(tasks[1..], id);
    }
  }
}
