/**
  A process's file-descriptor table (`fd_manager.fd_table`, a vector of
  optional shared file handles) together with its limit, and the open file
  objects it holds. File objects are a closed variant with the attributes the
  system calls inspect: their kind, whether they are readable or writable,
  and their status flags.
 */
module FdTables {
  import opened Common

  /** `OpenFlags::CLOEXEC`, the Linux value of O_CLOEXEC. */
  const O_CLOEXEC: bv32 := 0x8_0000

  /** The status flags with CLOEXEC set; every other flag is kept. */
  function WithCloseOnExec(status: bv32): (r: bv32)
    ensures r & O_CLOEXEC == O_CLOEXEC
    ensures r & !O_CLOEXEC == status & !O_CLOEXEC
  {
    status | O_CLOEXEC
  }

  /** The status flags with CLOEXEC cleared; every other flag is kept. */
  function WithoutCloseOnExec(status: bv32): (r: bv32)
    ensures r & O_CLOEXEC == 0
    ensures r & !O_CLOEXEC == status & !O_CLOEXEC
  {
    status & !O_CLOEXEC
  }

  datatype FileKind =
    | RegularFile
    | Directory
    | PipeEnd
    | Socket(nonblocking: bool, connected: bool)

  /** An open file object shared by every slot that refers to it. */
  class File {
    const kind: FileKind
    const readable: bool
    const writable: bool
    /** Whether the object honours `set_status` and `set_close_on_exec`; objects that do not refuse both. */
    const acceptsFlags: bool
    var status: bv32

    constructor (kind: FileKind, readable: bool, writable: bool, acceptsFlags: bool, status: bv32)
      ensures this.kind == kind && this.readable == readable && this.writable == writable
      ensures this.acceptsFlags == acceptsFlags && this.status == status
    {
      this.kind := kind;
      this.readable := readable;
      this.writable := writable;
      this.acceptsFlags := acceptsFlags;
      this.status := status;
    }

    /** `set_close_on_exec`: sets or clears CLOEXEC when the object accepts it, and reports whether it did. */
    method SetCloseOnExec(on: bool) returns (ok: bool)
      modifies this`status
      ensures ok == acceptsFlags
      ensures status == if !ok then old(status) else if on then WithCloseOnExec(old(status)) else WithoutCloseOnExec(old(status))
    {
      ok := acceptsFlags;
      if ok {
        status := if on then WithCloseOnExec(status) else WithoutCloseOnExec(status);
      }
    }

    /** `set_status`: replaces the status flags when the object accepts it, and reports whether it did. */
    method SetStatus(flags: bv32) returns (ok: bool)
      modifies this`status
      ensures ok == acceptsFlags
      ensures status == if ok then flags else old(status)
    {
      ok := acceptsFlags;
      if ok {
        status := flags;
      }
    }
  }

  /** `fd` names an open file in `table`. */
  predicate IsOpenIn(table: seq<Option<File>>, fd: nat)
  {
    fd < |table| && table[fd].Some?
  }

  /**
    `after` is `before` possibly padded with empty slots, and then `entry`
    placed into `slot`, a slot that was empty or new. Every other slot keeps
    its contents.
   */
  ghost predicate Installed(before: seq<Option<File>>, after: seq<Option<File>>, slot: nat, entry: Option<File>)
  {
    && |before| <= |after|
    && slot < |after|
    && (slot < |before| ==> before[slot].None?)
    && after[slot] == entry
    && (forall i :: 0 <= i < |before| && i != slot ==> after[i] == before[i])
    && (forall i :: |before| <= i < |after| && i != slot ==> after[i].None?)
  }

  /** `after` is `before` possibly padded with empty slots. */
  ghost predicate Padded(before: seq<Option<File>>, after: seq<Option<File>>)
  {
    && |before| <= |after|
    && after[..|before|] == before
    && (forall i :: |before| <= i < |after| ==> after[i].None?)
  }

  class FdTable {
    var table: seq<Option<File>>
    /** The RLIMIT_NOFILE limit (`get_limit` / `set_limit`). */
    var limit: nat

    constructor (table: seq<Option<File>>, limit: nat)
      ensures this.table == table && this.limit == limit
    {
      this.table := table;
      this.limit := limit;
    }

    predicate IsOpen(fd: nat)
      reads this
    {
      IsOpenIn(table, fd)
    }

    /** `set_limit` */
    method SetLimit(newLimit: nat)
      modifies this`limit
      ensures limit == newLimit
    {
      limit := newLimit;
    }

    /**
      `alloc_fd`: an index whose slot is empty, the table possibly padded to
      reach it, or a failure that leaves the table as it was. This body takes
      the lowest empty slot and otherwise grows the table by one while it is
      below the limit; callers rely on the contract only.
     */
    method AllocFd() returns (fd: Option<nat>)
      modifies this`table
      ensures fd.Some? ==> fd.value < |table| && table[fd.value].None? && Padded(old(table), table)
      ensures fd.None? ==> table == old(table)
    {
      var i := 0;
      while i < |table|
        invariant 0 <= i <= |table|
        invariant forall j :: 0 <= j < i ==> table[j].Some?
      {
        if table[i].None? {
          return Some(i);
        }
        i := i + 1;
      }
      if |table| < limit {
        table := table + [None];
        return Some(|table| - 1);
      }
      return None;
    }
  }
}
