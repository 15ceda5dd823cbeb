/**
  From api/linux_syscall_api/src/syscall_fs/imp/ctl.rs: `fcntl64`, which
  edits the descriptor table and the flags of a shared file object, and the
  checks `renameat2` and `getcwd` make before touching the file system.

  Command numbers and flag bits take their Linux values.
 */
module CtlSyscalls {
  import opened Common
  import opened FdTables

  const F_DUPFD: nat := 0
  const F_GETFD: nat := 1
  const F_SETFD: nat := 2
  const F_GETFL: nat := 3
  const F_SETFL: nat := 4
  const F_DUPFD_CLOEXEC: nat := 1030

  /** The status flags a file ends up with after `set_close_on_exec(on)`. */
  ghost function AfterCloseOnExec(f: File, status: bv32, on: bool): bv32
  {
    if !f.acceptsFlags then status else if on then WithCloseOnExec(status) else WithoutCloseOnExec(status)
  }

  /**
    `fcntl64`. `arg` is the low 32 bits of the argument word, the only bits
    the call reads (`arg & 1` and `arg as u32`). `definedFlags` holds the
    bits `OpenFlags` defines; a status word with any other bit is rejected
    by `F_SETFL`. The flags edited by
    `F_SETFD`, `F_SETFL` and `F_DUPFD_CLOEXEC` belong to the file object, so
    every descriptor sharing it sees them.
   */
  method Fcntl64(t: FdTable, fd: nat, cmd: nat, arg: bv32, definedFlags: bv32) returns (r: SysResult<int>)
    modifies t`table, (if t.IsOpen(fd) then {t.table[fd].value} else {})`status
    ensures !old(t.IsOpen(fd)) ==> r == Err(EBADF) && t.table == old(t.table)
    ensures old(t.IsOpen(fd)) ==>
      var f := old(t.table[fd].value);
      && (cmd == F_DUPFD ==>
            && f.status == old(f.status)
            && (|| (r == Err(EMFILE) && t.table == old(t.table))
                || (r.Ok? && r.value >= 0 && Installed(old(t.table), t.table, r.value, Some(f)))))
      && (cmd == F_GETFD ==>
            && r == Ok(if old(f.status) & O_CLOEXEC != 0 then 1 else 0)
            && t.table == old(t.table) && f.status == old(f.status))
      && (cmd == F_SETFD ==>
            && r == (if f.acceptsFlags then Ok(0) else Err(EINVAL))
            && t.table == old(t.table)
            && f.status == AfterCloseOnExec(f, old(f.status), arg & 1 != 0))
      && (cmd == F_GETFL ==>
            r == Ok(old(f.status) as int) && t.table == old(t.table) && f.status == old(f.status))
      && (cmd == F_SETFL ==>
            && t.table == old(t.table)
            && (if arg & !definedFlags != 0 || !f.acceptsFlags
                then r == Err(EINVAL) && f.status == old(f.status)
                else r == Ok(0) && f.status == arg))
      && (cmd == F_DUPFD_CLOEXEC ==>
            || (r == Err(EMFILE) && t.table == old(t.table) && f.status == old(f.status))
            || (&& !f.acceptsFlags && r == Err(EINVAL) && f.status == old(f.status)
                && Padded(old(t.table), t.table))
            || (&& f.acceptsFlags && r.Ok? && f.status == AfterCloseOnExec(f, old(f.status), arg & 1 != 0)
                && r.value >= 0 && Installed(old(t.table), t.table, r.value, Some(f))))
      && (cmd !in {F_DUPFD, F_GETFD, F_SETFD, F_GETFL, F_SETFL, F_DUPFD_CLOEXEC} ==>
            r == Err(EINVAL) && t.table == old(t.table) && f.status == old(f.status))
  {
    if fd >= |t.table| || t.table[fd].None? {
      return Err(EBADF);
    }
    var file := t.table[fd].value;
    if cmd == F_DUPFD {
      r := DupFd(t, fd);
    } else if cmd == F_GETFD {
      r := Ok(if file.status & O_CLOEXEC != 0 then 1 else 0);
    } else if cmd == F_SETFD {
      var ok := file.SetCloseOnExec(arg & 1 != 0);
      r := if ok then Ok(0) else Err(EINVAL);
    } else if cmd == F_GETFL {
      r := Ok(file.status as int);
    } else if cmd == F_SETFL {
      r := SetStatusFlags(file, arg, definedFlags);
    } else if cmd == F_DUPFD_CLOEXEC {
      r := DupFdCloseOnExec(t, fd, file, arg & 1 != 0);
    } else {
      r := Err(EINVAL);
    }
  }

  /** F_DUPFD: the open file `fd` copied into a slot `alloc_fd` hands out. */
  method DupFd(t: FdTable, fd: nat) returns (r: SysResult<int>)
    requires t.IsOpen(fd)
    modifies t`table
    ensures || (r == Err(EMFILE) && t.table == old(t.table))
            || (r.Ok? && r.value >= 0 && Installed(old(t.table), t.table, r.value, old(t.table[fd])))
  {
    var newFd := t.AllocFd();
    if newFd.None? {
      return Err(EMFILE);
    }
    t.table := t.table[newFd.value := t.table[fd]];
    return Ok(newFd.value);
  }

  /** F_SETFL: a status word with a bit `OpenFlags` does not define, or one the file refuses, is EINVAL. */
  method SetStatusFlags(file: File, flags: bv32, definedFlags: bv32) returns (r: SysResult<int>)
    modifies file`status
    ensures if flags & !definedFlags != 0 || !file.acceptsFlags
            then r == Err(EINVAL) && file.status == old(file.status)
            else r == Ok(0) && file.status == flags
  {
    if flags & !definedFlags == 0 {
      var ok := file.SetStatus(flags);
      if ok {
        return Ok(0);
      }
    }
    return Err(EINVAL);
  }

  /**
    F_DUPFD_CLOEXEC: a slot is allocated first, then close-on-exec is set on
    the shared file and the file copied into the slot. A refusal leaves the
    table possibly padded by the allocation.
   */
  method DupFdCloseOnExec(t: FdTable, fd: nat, f: File, on: bool) returns (r: SysResult<int>)
    requires fd < |t.table| && t.table[fd] == Some(f)
    modifies t`table, f`status
    ensures || (r == Err(EMFILE) && t.table == old(t.table) && f.status == old(f.status))
      || (&& !f.acceptsFlags && r == Err(EINVAL) && f.status == old(f.status)
          && Padded(old(t.table), t.table))
      || (&& f.acceptsFlags && r.Ok? && f.status == AfterCloseOnExec(f, old(f.status), on)
          && r.value >= 0 && Installed(old(t.table), t.table, r.value, Some(f)))
  {
    var newFd := t.AllocFd();
    if newFd.None? {
      return Err(EMFILE);
    }
    var ok := f.SetCloseOnExec(on);
    if ok {
      t.table := t.table[newFd.value := Some(f)];
      return Ok(newFd.value);
    } else {
      return Err(EINVAL);
    }
  }

  /** `RenameFlags` */
  const RENAME_NOREPLACE: nat := 1
  const RENAME_EXCHANGE: nat := 2
  const RENAME_WHITEOUT: nat := 4

  predicate HasFlag(flags: nat, bit: nat)
    requires bit in {RENAME_NOREPLACE, RENAME_EXCHANGE, RENAME_WHITEOUT}
  {
    (flags / bit) % 2 == 1
  }

  /** Whether a resolved path lies under /proc. */
  predicate UnderProc(path: string)
  {
    "/proc" <= path
  }

  /** What `renameat2` goes on to do once its checks pass. */
  datatype RenamePlan =
    | SamePath
      /** Rename, first removing the existing target when there is one. */
    | Move(removeTarget: bool)

  /**
    The checks of `renameat2`, in the order the call makes them. The two paths
    are the resolved ones (`None` when resolution failed, which panics);
    `pathExists` and `isDir` answer for the file system. Asking for the metadata of
    a missing source panics.
   */
  function Renameat2(oldPath: Option<string>, newPath: Option<string>, flags: nat,
                     pathExists: string -> bool, isDir: string -> bool): (r: SysResult<RenamePlan>)
    ensures oldPath.None? || newPath.None? ==> r == Panic
    ensures oldPath.Some? && newPath.Some? && (UnderProc(oldPath.value) || UnderProc(newPath.value)) ==> r == Err(EPERM)
    ensures oldPath.Some? && newPath.Some? && !UnderProc(oldPath.value) && !UnderProc(newPath.value) ==>
      var bits := flags % HALF_WORD;
      && (bits >= 8 ==> r == Err(EINVAL))
      && (bits < 8 && HasFlag(bits, RENAME_NOREPLACE) && HasFlag(bits, RENAME_EXCHANGE) ==> r == Err(EINVAL))
      && (bits < 8 && !HasFlag(bits, RENAME_NOREPLACE) && HasFlag(bits, RENAME_EXCHANGE) && HasFlag(bits, RENAME_WHITEOUT) ==> r == Err(EINVAL))
      && (bits < 8 && HasFlag(bits, RENAME_NOREPLACE) && !HasFlag(bits, RENAME_EXCHANGE) && pathExists(newPath.value) ==> r == Err(EEXIST))
      && (r.Ok? ==> pathExists(oldPath.value) && bits < 8)
      && (r.Ok? && r.value.Move? ==> !HasFlag(bits, RENAME_EXCHANGE))
      && (r == Ok(SamePath) <==> r.Ok? && oldPath.value == newPath.value)
      && (r.Ok? && r.value.Move? ==> r.value.removeTarget == pathExists(newPath.value))
  {
    if oldPath.None? || newPath.None? then Panic
    else
      var src := oldPath.value;
      var dst := newPath.value;
      if UnderProc(src) || UnderProc(dst) then Err(EPERM)
      else
        var bits := flags % HALF_WORD;
        if bits >= 8 then Err(EINVAL)
        else if HasFlag(bits, RENAME_NOREPLACE) && HasFlag(bits, RENAME_EXCHANGE) then Err(EINVAL)
        else if HasFlag(bits, RENAME_NOREPLACE) && pathExists(dst) then Err(EEXIST)
        else if !HasFlag(bits, RENAME_EXCHANGE) && pathExists(dst) && !pathExists(src) then Panic
        else if !HasFlag(bits, RENAME_EXCHANGE) && pathExists(dst) && isDir(src) != isDir(dst) then
          (if isDir(src) then Err(ENOTDIR) else Err(EISDIR))
        else if HasFlag(bits, RENAME_EXCHANGE) && HasFlag(bits, RENAME_WHITEOUT) then Err(EINVAL)
        else if !pathExists(src) then Err(ENOENT)
        else if src == dst then Ok(SamePath)
        else if HasFlag(bits, RENAME_EXCHANGE) then Err(EPERM)
        else Ok(Move(pathExists(dst)))
  }

  /** `rename` forwards with RENAME_NOREPLACE, so renaming an existing path onto itself is EEXIST; without flags it is a no-op. */
  lemma RenameOntoItself(path: string, pathExists: string -> bool, isDir: string -> bool)
    requires !UnderProc(path) && pathExists(path)
    ensures Renameat2(Some(path), Some(path), RENAME_NOREPLACE, pathExists, isDir) == Err(EEXIST)
    ensures Renameat2(Some(path), Some(path), 0, pathExists, isDir) == Ok(SamePath)
  {
  }

  /**
    `getcwd`: a buffer shorter than the working directory's bytes is ERANGE;
    otherwise the buffer address is returned, or EINVAL when the buffer could
    not be faulted in.
   */
  function Getcwd(cwd: seq<bv8>, buf: nat, len: nat, bufMapped: bool): (r: SysResult<int>)
    ensures r == Err(ERANGE) <==> len < |cwd|
    ensures r.Ok? <==> |cwd| <= len && bufMapped
    ensures r.Ok? ==> r.value == buf
    ensures !r.Ok? ==> r.Err? && r.errno in {ERANGE, EINVAL}
  {
    if len >= |cwd| then
      (if bufMapped then Ok(buf) else Err(EINVAL))
    else Err(ERANGE)
  }
}
