/**
  The file-descriptor system calls of
  api/linux_syscall_api/src/syscall_fs/imp/io.rs: the table edits of `dup`,
  `dup3`, `close` and `pipe2`, the argument checks that `read`, `write`,
  `lseek` and `ftruncate64` make before handing over to the file object, and
  the accumulation loop shared by `readv` and `writev`.

  What the file objects themselves do (the bytes read or written, the new
  offset of a seek, whether a truncate succeeds) is not part of this model;
  it enters as the outcome parameters of the functions below.
 */
module IoSyscalls {
  import opened Common
  import opened FdTables

  /** `dup`: a second slot that shares the handle of `fd`. */
  method Dup(t: FdTable, fd: nat) returns (r: SysResult<nat>)
    modifies t`table
    ensures !old(t.IsOpen(fd)) ==> r == Err(EBADF) && t.table == old(t.table)
    ensures old(t.IsOpen(fd)) ==>
      || (r == Err(EMFILE) && t.table == old(t.table))
      || (r.Ok? && Installed(old(t.table), t.table, r.value, old(t.table[fd])))
  {
    if fd >= |t.table| {
      return Err(EBADF);
    }
    if t.table[fd].None? {
      return Err(EBADF);
    }
    var newFd := t.AllocFd();
    if newFd.None? {
      return Err(EMFILE);
    }
    t.table := t.table[newFd.value := t.table[fd]];
    return Ok(newFd.value);
  }

  /**
    The table after a successful `dup3(fd, newFd)`: padded with empty slots
    up to `newFd`, and slot `newFd` (open or not) sharing the handle of `fd`.
   */
  function Dup3Table(table: seq<Option<File>>, fd: nat, newFd: nat): (r: seq<Option<File>>)
    requires IsOpenIn(table, fd)
    ensures |r| == if newFd < |table| then |table| else newFd + 1
    ensures r[newFd] == table[fd]
    ensures forall i :: 0 <= i < |table| && i != newFd ==> r[i] == table[i]
    ensures forall i :: |table| <= i < |r| && i != newFd ==> r[i].None?
  {
    var padded := if newFd < |table| then table else table + seq(newFd + 1 - |table|, _ => None);
    padded[newFd := table[fd]]
  }

  /** `dup3` (and `dup2`, which forwards to it). */
  method Dup3(t: FdTable, fd: nat, newFd: nat) returns (r: SysResult<nat>)
    modifies t`table
    ensures !old(t.IsOpen(fd)) ==> r == Err(EPERM) && t.table == old(t.table)
    ensures old(t.IsOpen(fd)) && newFd >= old(|t.table|) && newFd >= t.limit ==>
      r == Err(EBADF) && t.table == old(t.table)
    ensures old(t.IsOpen(fd)) && (newFd < old(|t.table|) || newFd < t.limit) ==>
      r == Ok(newFd) && t.table == Dup3Table(old(t.table), fd, newFd)
  {
    if fd >= |t.table| {
      return Err(EPERM);
    }
    if t.table[fd].None? {
      return Err(EPERM);
    }
    ghost var before := t.table;
    if newFd >= |t.table| {
      if newFd >= t.limit {
        return Err(EBADF);
      }
      while |t.table| < newFd + 1
        invariant |before| <= |t.table| <= newFd + 1
        invariant t.table == before + seq(|t.table| - |before|, _ => None)
        decreases newFd + 1 - |t.table|
      {
        t.table := t.table + [None];
      }
    }
    t.table := t.table[newFd := t.table[fd]];
    return Ok(newFd);
  }

  /** `close`: the slot becomes empty; the table keeps its length. */
  method Close(t: FdTable, fd: nat) returns (r: SysResult<nat>)
    modifies t`table
    ensures !old(t.IsOpen(fd)) ==> r == Err(EPERM) && t.table == old(t.table)
    ensures old(t.IsOpen(fd)) ==> r == Ok(0) && t.table == old(t.table)[fd := None]
  {
    if fd >= |t.table| {
      return Err(EPERM);
    }
    if t.table[fd].None? {
      return Err(EPERM);
    }
    t.table := t.table[fd := None];
    return Ok(0);
  }

  /**
    `pipe2`: the read end goes into the first slot allocated, the write end
    into the second, and both indexes are reported. `fdMapped` says whether the
    user array for the two indexes could be faulted in; `readEnd` and
    `writeEnd` are the two ends `make_pipe` created. A failure of the second
    allocation leaves the read end installed.
   */
  method Pipe2(t: FdTable, fdMapped: bool, readEnd: File, writeEnd: File) returns (r: SysResult<(nat, nat)>)
    modifies t`table
    ensures !fdMapped ==> r == Err(EINVAL) && t.table == old(t.table)
    ensures r.Ok? ==>
      && fdMapped
      && r.value.0 != r.value.1
      && old(|t.table|) <= |t.table|
      && r.value.0 < |t.table| && t.table[r.value.0] == Some(readEnd)
      && r.value.1 < |t.table| && t.table[r.value.1] == Some(writeEnd)
      && (r.value.0 < old(|t.table|) ==> old(t.table[r.value.0]).None?)
      && (r.value.1 < old(|t.table|) ==> old(t.table[r.value.1]).None?)
      && (forall i :: 0 <= i < old(|t.table|) && i != r.value.0 && i != r.value.1 ==> t.table[i] == old(t.table[i]))
      && (forall i :: old(|t.table|) <= i < |t.table| && i != r.value.0 && i != r.value.1 ==> t.table[i].None?)
    ensures r.Err? && fdMapped ==> r.errno == EPERM
    ensures r.Err? && fdMapped ==>
      || t.table == old(t.table)
      || exists s :: Installed(old(t.table), t.table, s, Some(readEnd))
    ensures !r.Panic?
  {
    if !fdMapped {
      return Err(EINVAL);
    }
    ghost var before := t.table;
    var first := t.AllocFd();
    if first.None? {
      return Err(EPERM);
    }
    t.table := t.table[first.value := Some(readEnd)];
    var second := t.AllocFd();
    if second.None? {
      assert Installed(before, t.table, first.value, Some(readEnd));
      return Err(EPERM);
    }
    t.table := t.table[second.value := Some(writeEnd)];
    return Ok((first.value, second.value));
  }

  /** Whether `read` goes on to the file object: not a directory, and readable or a socket that may block. */
  predicate ReadGoesAhead(f: File)
    ensures f.kind.Directory? ==> !ReadGoesAhead(f)
    ensures !f.kind.Directory? && f.readable ==> ReadGoesAhead(f)
    ensures !f.readable && !f.kind.Socket? ==> !ReadGoesAhead(f)
  {
    && !f.kind.Directory?
    && (f.readable || (f.kind.Socket? && !(f.kind.nonblocking && f.kind.connected)))
  }

  /** Whether `write` goes on to the file object: not a directory, and writable or a socket that may block. */
  predicate WriteGoesAhead(f: File)
    ensures f.kind.Directory? ==> !WriteGoesAhead(f)
    ensures !f.kind.Directory? && f.writable ==> WriteGoesAhead(f)
    ensures !f.writable && !f.kind.Socket? ==> !WriteGoesAhead(f)
  {
    && !f.kind.Directory?
    && (f.writable || (f.kind.Socket? && !(f.kind.nonblocking && f.kind.connected)))
  }

  /**
    The checks `read` makes before calling the file object: the file to read,
    or the error. `bufMapped` says whether the user buffer could be faulted in.
   */
  function ReadTarget(table: seq<Option<File>>, fd: nat, bufNull: bool, bufMapped: bool): (r: SysResult<File>)
    ensures r.Ok? <==> !bufNull && bufMapped && IsOpenIn(table, fd) && ReadGoesAhead(table[fd].value)
    ensures r.Ok? ==> r.value == table[fd].value
    ensures (bufNull || !bufMapped) ==> r == Err(EFAULT)
    ensures !bufNull && bufMapped && !IsOpenIn(table, fd) ==> r == Err(EBADF)
    ensures !r.Panic?
  {
    if bufNull || !bufMapped then Err(EFAULT)
    else if !IsOpenIn(table, fd) then Err(EBADF)
    else
      var f := table[fd].value;
      if f.kind.Directory? then Err(EISDIR)
      else if !f.readable && f.kind.Socket? && f.kind.nonblocking && f.kind.connected then Err(EAGAIN)
      else if !f.readable && !f.kind.Socket? then Err(EBADF)
      else Ok(f)
  }

  /** The checks `write` makes before calling the file object. */
  function WriteTarget(table: seq<Option<File>>, fd: nat, bufNull: bool, bufMapped: bool): (r: SysResult<File>)
    ensures r.Ok? <==> !bufNull && bufMapped && IsOpenIn(table, fd) && WriteGoesAhead(table[fd].value)
    ensures r.Ok? ==> r.value == table[fd].value
    ensures (bufNull || !bufMapped) ==> r == Err(EFAULT)
    ensures !bufNull && bufMapped && !IsOpenIn(table, fd) ==> r == Err(EBADF)
    ensures !r.Panic?
  {
    if bufNull || !bufMapped then Err(EFAULT)
    else if !IsOpenIn(table, fd) then Err(EBADF)
    else
      var f := table[fd].value;
      if f.kind.Directory? then Err(EBADF)
      else if !f.writable && f.kind.Socket? && f.kind.nonblocking && f.kind.connected then Err(EAGAIN)
      else if !f.writable && !f.kind.Socket? then Err(EBADF)
      else Ok(f)
  }

  /** A directory is refused differently by the two calls: EISDIR for `read`, EBADF for `write`. */
  lemma DirectoryReadWrite(table: seq<Option<File>>, fd: nat)
    requires IsOpenIn(table, fd) && table[fd].value.kind.Directory?
    ensures ReadTarget(table, fd, false, true) == Err(EISDIR)
    ensures WriteTarget(table, fd, false, true) == Err(EBADF)
  {
  }

  /** A nonblocking connected socket that cannot be read from or written to reports EAGAIN. */
  lemma NonblockingSocketAgain(table: seq<Option<File>>, fd: nat)
    requires IsOpenIn(table, fd) && table[fd].value.kind == Socket(true, true)
    ensures !table[fd].value.readable ==> ReadTarget(table, fd, false, true) == Err(EAGAIN)
    ensures !table[fd].value.writable ==> WriteTarget(table, fd, false, true) == Err(EAGAIN)
  {
  }

  /** The errors a file object reports (`AxError`), as far as the calls tell them apart. */
  datatype IoError = WouldBlock | InvalidInput | ConnectionReset | OtherIoError

  /** What a file object's `read` or `write` returned. */
  datatype IoOutcome = Done(len: nat) | Failed(error: IoError)

  /** `read`: the checks, then the file object's outcome translated to an error number. */
  function Read(table: seq<Option<File>>, fd: nat, bufNull: bool, bufMapped: bool, outcome: IoOutcome): (r: SysResult<int>)
    ensures r.Ok? <==> ReadTarget(table, fd, bufNull, bufMapped).Ok? && outcome.Done?
    ensures r.Ok? ==> r.value == outcome.len
    ensures ReadTarget(table, fd, bufNull, bufMapped).Ok? && outcome == Failed(WouldBlock) ==> r == Err(EAGAIN)
    ensures ReadTarget(table, fd, bufNull, bufMapped).Ok? && outcome == Failed(InvalidInput) ==> r == Err(EINVAL)
    ensures ReadTarget(table, fd, bufNull, bufMapped).Ok? && outcome.Failed? && outcome.error in {ConnectionReset, OtherIoError} ==> r == Err(EPERM)
  {
    match ReadTarget(table, fd, bufNull, bufMapped)
    case Err(e) => Err(e)
    case Panic => Panic
    case Ok(_) =>
      match outcome
      case Done(n) => Ok(n)
      case Failed(WouldBlock) => Err(EAGAIN)
      case Failed(InvalidInput) => Err(EINVAL)
      case Failed(_) => Err(EPERM)
  }

  /** `write`: the checks, then the file object's outcome; a reset connection is EPIPE. */
  function Write(table: seq<Option<File>>, fd: nat, bufNull: bool, bufMapped: bool, outcome: IoOutcome): (r: SysResult<int>)
    ensures r.Ok? <==> WriteTarget(table, fd, bufNull, bufMapped).Ok? && outcome.Done?
    ensures r.Ok? ==> r.value == outcome.len
    ensures WriteTarget(table, fd, bufNull, bufMapped).Ok? && outcome == Failed(ConnectionReset) ==> r == Err(EPIPE)
    ensures WriteTarget(table, fd, bufNull, bufMapped).Ok? && outcome == Failed(WouldBlock) ==> r == Err(EAGAIN)
    ensures WriteTarget(table, fd, bufNull, bufMapped).Ok? && outcome == Failed(InvalidInput) ==> r == Err(EINVAL)
    ensures WriteTarget(table, fd, bufNull, bufMapped).Ok? && outcome == Failed(OtherIoError) ==> r == Err(EPERM)
  {
    match WriteTarget(table, fd, bufNull, bufMapped)
    case Err(e) => Err(e)
    case Panic => Panic
    case Ok(_) =>
      match outcome
      case Done(n) => Ok(n)
      case Failed(ConnectionReset) => Err(EPIPE)
      case Failed(WouldBlock) => Err(EAGAIN)
      case Failed(InvalidInput) => Err(EINVAL)
      case Failed(_) => Err(EPERM)
  }

  /** One `IoVec` entry: a user buffer address and length. */
  datatype IoVec = IoVec(base: nat, len: nat)

  /** Entries with a null base or a zero length are skipped. */
  predicate Counted(v: IoVec)
  {
    v.base != 0 && v.len != 0
  }

  /** A count added to a result; an error passes through. */
  function AddTo(n: int, r: SysResult<int>): SysResult<int>
  {
    if r.Ok? then Ok(n + r.value) else r
  }

  /**
    The value of `readv` / `writev` given, for every entry, what `read` /
    `write` returns for it: the counted entries' lengths added up, or the
    first counted entry's error.
   */
  function VectoredTotal(iovs: seq<IoVec>, results: seq<SysResult<int>>): (r: SysResult<int>)
    requires |results| == |iovs|
    ensures !r.Ok? ==> exists i :: 0 <= i < |iovs| && Counted(iovs[i]) && results[i] == r
    ensures r.Ok? ==> forall i :: 0 <= i < |iovs| && Counted(iovs[i]) ==> results[i].Ok?
    decreases |iovs|
  {
    if iovs == [] then Ok(0)
    else if !Counted(iovs[0]) then VectoredTotal(iovs[1..], results[1..])
    else if !results[0].Ok? then results[0]
    else AddTo(results[0].value, VectoredTotal(iovs[1..], results[1..]))
  }

  /** The sum of the results of the counted entries that succeeded. */
  function CountedSum(iovs: seq<IoVec>, results: seq<SysResult<int>>): (r: int)
    requires |results| == |iovs|
    ensures (forall i :: 0 <= i < |iovs| && Counted(iovs[i]) && results[i].Ok? ==> results[i].value >= 0) ==> r >= 0
    decreases |iovs|
  {
    if iovs == [] then 0
    else (if Counted(iovs[0]) && results[0].Ok? then results[0].value else 0) + CountedSum(iovs[1..], results[1..])
  }

  /** When every counted entry succeeds, the call returns the sum of their lengths. */
  lemma {:induction false} VectoredAllSucceed(iovs: seq<IoVec>, results: seq<SysResult<int>>)
    requires |results| == |iovs|
    requires forall i :: 0 <= i < |iovs| && Counted(iovs[i]) ==> results[i].Ok?
    ensures VectoredTotal(iovs, results) == Ok(CountedSum(iovs, results))
    decreases |iovs|
  {
    if iovs != [] {
      VectoredAllSucceed(iovs[1..], results[1..]);
    }
  }

  /** A counted entry that fails, with every earlier counted entry succeeding, decides the result unchanged. */
  lemma {:induction false} VectoredFirstError(iovs: seq<IoVec>, results: seq<SysResult<int>>, k: nat)
    requires |results| == |iovs|
    requires k < |iovs| && Counted(iovs[k]) && !results[k].Ok?
    requires forall j :: 0 <= j < k && Counted(iovs[j]) ==> results[j].Ok?
    ensures VectoredTotal(iovs, results) == results[k]
    decreases |iovs|
  {
    if k > 0 {
      VectoredFirstError(iovs[1..], results[1..], k - 1);
    }
  }

  /** The loop of `readv` and `writev`; `results[i]` is what the single call returns for entry `i`. */
  method VectoredIo(iovs: seq<IoVec>, results: seq<SysResult<int>>) returns (r: SysResult<int>)
    requires |results| == |iovs|
    ensures r == VectoredTotal(iovs, results)
  {
    var total := 0;
    for i := 0 to |iovs|
      invariant VectoredTotal(iovs, results) == AddTo(total, VectoredTotal(iovs[i..], results[i..]))
    {
      assert iovs[i..][1..] == iovs[i + 1..] && results[i..][1..] == results[i + 1..];
      if !Counted(iovs[i]) {
        continue;
      }
      if !results[i].Ok? {
        return results[i];
      }
      total := total + results[i].value;
    }
    assert iovs[|iovs|..] == [];
    return Ok(total);
  }

  /** The position argument of a seek. */
  datatype SeekFrom = Start(pos: nat) | Current(delta: int) | End(delta: int)

  /** Whether `lseek` accepts a descriptor: not one of 0, 1, 2, and open. */
  predicate SeekableFd(table: seq<Option<File>>, fd: nat)
  {
    3 <= fd && IsOpenIn(table, fd)
  }

  /**
    The checks of `lseek` and the seek it asks of the file: SEEK_SET with the
    offset as an unsigned position, SEEK_CUR and SEEK_END with the offset as a
    signed displacement.
   */
  function SeekRequest(table: seq<Option<File>>, fd: nat, offset: nat, whence: nat): (r: SysResult<(File, SeekFrom)>)
    requires offset < WORD
    ensures r == Err(EBADF) <==> !SeekableFd(table, fd)
    ensures r == Err(EISDIR) <==> SeekableFd(table, fd) && table[fd].value.kind.Directory?
    ensures r.Ok? <==> SeekableFd(table, fd) && !table[fd].value.kind.Directory? && whence <= 2
    ensures r.Ok? ==> r.value.0 == table[fd].value
    ensures r.Ok? && whence == 0 ==> r.value.1 == Start(offset)
    ensures r.Ok? && whence == 1 ==> r.value.1 == Current(AsIsize(offset))
    ensures r.Ok? && whence == 2 ==> r.value.1 == End(AsIsize(offset))
    ensures !r.Ok? ==> r.Err? && r.errno in {EBADF, EISDIR, EINVAL}
  {
    if fd >= |table| || fd < 3 then Err(EBADF)
    else if table[fd].None? then Err(EBADF)
    else
      var f := table[fd].value;
      if f.kind.Directory? then Err(EISDIR)
      else if whence == 0 then Ok((f, Start(offset)))
      else if whence == 1 then Ok((f, Current(AsIsize(offset))))
      else if whence == 2 then Ok((f, End(AsIsize(offset))))
      else Err(EINVAL)
  }

  /** `lseek`: the new offset the file reports, and EINVAL when the seek fails. */
  function Lseek(table: seq<Option<File>>, fd: nat, offset: nat, whence: nat, seekResult: Option<nat>): (r: SysResult<int>)
    requires offset < WORD
    ensures r.Ok? <==> SeekRequest(table, fd, offset, whence).Ok? && seekResult.Some?
    ensures r.Ok? ==> r.value == seekResult.value
    ensures SeekRequest(table, fd, offset, whence).Ok? && seekResult.None? ==> r == Err(EINVAL)
    ensures SeekRequest(table, fd, offset, whence).Err? ==> r == Err(SeekRequest(table, fd, offset, whence).errno)
  {
    match SeekRequest(table, fd, offset, whence)
    case Err(e) => Err(e)
    case Panic => Panic
    case Ok(_) => if seekResult.Some? then Ok(seekResult.value) else Err(EINVAL)
  }

  /** `ftruncate64`: every failure, including a closed descriptor, is EINVAL. */
  function Ftruncate64(table: seq<Option<File>>, fd: nat, truncated: bool): (r: SysResult<int>)
    ensures r == Ok(0) <==> IsOpenIn(table, fd) && truncated
    ensures r != Ok(0) ==> r == Err(EINVAL)
  {
    if fd >= |table| then Err(EINVAL)
    else if table[fd].None? then Err(EINVAL)
    else if !truncated then Err(EINVAL)
    else Ok(0)
  }
}
