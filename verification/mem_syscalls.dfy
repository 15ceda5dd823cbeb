/**
  api/linux_syscall_api/src/syscall_mem/imp.rs: `brk`, the argument checks
  of `mmap`, the key logic of `shmget` and the address and permission logic
  of `shmat`. The memory set (mapping, free-area search, creation of shared
  segments) is outside the model and enters as parameters.

  Flag bits take their values from the source where it defines them
  (`ShmFlags`, `ShmAtFlags`) and the Linux values otherwise (MAP_FIXED,
  MAP_ANONYMOUS).
 */
module MemSyscalls {
  import opened Common
  import opened Tasks
  import opened FdTables
  import opened Processes

  const MAX_HEAP_SIZE: nat := 0x20000

  /** Whether `brk` moves the heap top: a non-zero address within MAX_HEAP_SIZE above the heap bottom. */
  predicate BrkAccepted(bottom: nat, brk: nat)
  {
    brk != 0 && bottom <= brk <= bottom + MAX_HEAP_SIZE
  }

  /** The heap top after `brk(brk)` and the value returned: the two are always the same. */
  function BrkStep(bottom: nat, top: nat, brk: nat): (r: (nat, int))
    ensures r.1 == r.0
    ensures r.0 == if BrkAccepted(bottom, brk) then brk else top
    ensures bottom <= top <= bottom + MAX_HEAP_SIZE ==> bottom <= r.0 <= bottom + MAX_HEAP_SIZE
  {
    if BrkAccepted(bottom, brk) then (brk, brk) else (top, top)
  }

  /** `brk(0)` only reports the heap top, and after a successful `brk(b)` it reports `b`. */
  lemma BrkThenQuery(bottom: nat, top: nat, brk: nat)
    requires BrkAccepted(bottom, brk)
    ensures BrkStep(bottom, top, 0) == (top, top)
    ensures var after := BrkStep(bottom, top, brk).0; BrkStep(bottom, after, 0) == (brk, brk)
  {
  }

  /** `brk` */
  method Brk(p: Process, brk: nat) returns (r: SysResult<int>)
    modifies p`heapTop
    ensures (p.heapTop, r) == (BrkStep(old(p.heapBottom), old(p.heapTop), brk).0, Ok(BrkStep(old(p.heapBottom), old(p.heapTop), brk).1))
  {
    var returned: int := p.heapTop;
    if brk != 0 && brk >= p.heapBottom && brk <= p.heapBottom + MAX_HEAP_SIZE {
      p.SetHeapTop(brk);
      returned := brk;
    }
    return Ok(returned);
  }

  const MAP_FIXED: nat := 0x10
  const MAP_ANONYMOUS: nat := 0x20

  /** Whether a flag word (taken as `u32`) contains a single-bit flag. */
  predicate Has(flags: nat, bit: nat)
    requires bit > 0
  {
    ((flags % HALF_WORD) / bit) % 2 == 1
  }

  /** What `mmap` asks of the memory set once its arguments are accepted. */
  datatype MmapPlan =
    | Anonymous(start: nat, len: nat, fixed: bool)
    | FileBacked(start: nat, len: nat, fixed: bool, file: File, offset: nat)

  /**
    The argument checks of `mmap`. The descriptor argument is read as an
    `i32`; a file-backed mapping of an object that is not a regular file
    panics.
   */
  function MmapRequest(table: seq<Option<File>>, start: nat, len: nat, flags: nat, fdArg: nat, offset: nat): (r: SysResult<MmapPlan>)
    ensures Has(flags, MAP_FIXED) && start == 0 ==> r == Err(EINVAL)
    ensures r.Ok? ==> (!(Has(flags, MAP_FIXED) && start == 0) && r.value.start == start && r.value.len == len
      && r.value.fixed == Has(flags, MAP_FIXED))
    ensures r.Ok? && r.value.Anonymous? <==>
      !(Has(flags, MAP_FIXED) && start == 0) && Has(flags, MAP_ANONYMOUS) && AsI32(fdArg) == -1 && offset == 0
    ensures r.Ok? && r.value.FileBacked? ==>
      && !Has(flags, MAP_ANONYMOUS)
      && 0 <= AsI32(fdArg) < |table|
      && table[AsI32(fdArg)] == Some(r.value.file)
      && r.value.file.kind.RegularFile?
      && r.value.offset == offset
    ensures !(Has(flags, MAP_FIXED) && start == 0) && !Has(flags, MAP_ANONYMOUS) && !IsOpenIn(table, if AsI32(fdArg) < 0 then |table| else AsI32(fdArg)) ==> r == Err(EINVAL)
    ensures !(Has(flags, MAP_FIXED) && start == 0) && Has(flags, MAP_ANONYMOUS) ==>
      r == if AsI32(fdArg) == -1 && offset == 0 then Ok(Anonymous(start, len, Has(flags, MAP_FIXED))) else Err(EINVAL)
    ensures !(Has(flags, MAP_FIXED) && start == 0) && !Has(flags, MAP_ANONYMOUS)
            && 0 <= AsI32(fdArg) < |table| && table[AsI32(fdArg)].Some? ==>
      var f := table[AsI32(fdArg)].value;
      && (r == Panic <==> !f.kind.RegularFile?)
      && (f.kind.RegularFile? ==> r == Ok(FileBacked(start, len, Has(flags, MAP_FIXED), f, offset)))
  {
    var fixed := Has(flags, MAP_FIXED);
    var fd := AsI32(fdArg);
    if fixed && start == 0 then Err(EINVAL)
    else if Has(flags, MAP_ANONYMOUS) then
      if !(fd == -1 && offset == 0) then Err(EINVAL)
      else Ok(Anonymous(start, len, fixed))
    else if fd >= |table| || fd < 0 then Err(EINVAL)
    else match table[fd]
      case None => Err(EINVAL)
      case Some(f) =>
        if !f.kind.RegularFile? then Panic
        else Ok(FileBacked(start, len, fixed, f, offset))
  }

  /** `IPC_PRIVATE` */
  const IPC_PRIVATE: int := 0
  /** `ShmFlags` */
  const IPC_CREAT: nat := 0x200
  const IPC_EXCL: nat := 0x400
  const SHM_HUGETLB: nat := 0x800
  const SHM_NORESERVE: nat := 0x1000

  /** What `shmget` does once its flags are decoded. */
  datatype ShmgetAction =
    | CreatePrivate(mode: nat)
    | UseExisting(shmid: nat)
    | CreateKeyed(key: int, mode: nat)

  /**
    The decision of `shmget` when the permission bits are the low bits of the
    flags below `permModulus`: the rest of the flags must be `ShmFlags` bits,
    IPC_PRIVATE always creates, an existing key is reused unless both
    IPC_CREAT and IPC_EXCL are given, and an absent key is created only with
    IPC_CREAT.
   */
  function ShmgetDecision(key: int, flags: int, permModulus: nat, keyMap: map<int, nat>): (r: SysResult<ShmgetAction>)
    requires permModulus in {0x200, 0x400}
    ensures r.Err? ==> r.errno in {EINVAL, EEXIST, ENOENT}
    ensures !r.Panic?
    ensures r.Ok? && r.value.CreatePrivate? ==> key == IPC_PRIVATE && r.value.mode < permModulus
    ensures r.Ok? && r.value.UseExisting? ==> key != IPC_PRIVATE && key in keyMap && r.value.shmid == keyMap[key]
    ensures r.Ok? && r.value.CreateKeyed? ==> key != IPC_PRIVATE && key !in keyMap && r.value.key == key && r.value.mode < permModulus
    ensures key == IPC_PRIVATE && r.Ok? ==> r.value.CreatePrivate?
  {
    var mode := flags % permModulus;
    var rest := flags - mode;
    if !(0 <= rest < 0x2000) then Err(EINVAL)
    else if key == IPC_PRIVATE then Ok(CreatePrivate(mode))
    else if key in keyMap then
      if (rest / IPC_CREAT) % 2 == 1 && (rest / IPC_EXCL) % 2 == 1 then Err(EEXIST)
      else Ok(UseExisting(keyMap[key]))
    else if (rest / IPC_CREAT) % 2 == 1 then Ok(CreateKeyed(key, mode))
    else Err(ENOENT)
  }

  /** `shmget` as written: the mode takes the low ten bits, `(1 << 10) - 1`. */
  function ShmgetPlanAsWritten(keyArg: nat, flagsArg: nat, keyMap: map<int, nat>): (r: SysResult<ShmgetAction>)
    ensures r.Ok? && r.value.CreatePrivate? ==> AsI32(keyArg) == IPC_PRIVATE && r.value.mode < 0x400
    ensures r.Ok? && r.value.UseExisting? ==> AsI32(keyArg) in keyMap && r.value.shmid == keyMap[AsI32(keyArg)]
  {
    ShmgetDecision(AsI32(keyArg), AsI32(flagsArg), 0x400, keyMap)
  }

  /** `shmget` with the nine permission bits the source's comment describes. */
  function ShmgetPlan(keyArg: nat, flagsArg: nat, keyMap: map<int, nat>): (r: SysResult<ShmgetAction>)
    ensures r.Ok? && r.value.CreatePrivate? ==> AsI32(keyArg) == IPC_PRIVATE && r.value.mode < 0x200
    ensures r.Ok? && r.value.CreateKeyed? ==> AsI32(keyArg) !in keyMap && r.value.key == AsI32(keyArg) && r.value.mode < 0x200
    ensures r.Ok? && r.value.UseExisting? ==> AsI32(keyArg) in keyMap && r.value.shmid == keyMap[AsI32(keyArg)]
  {
    ShmgetDecision(AsI32(keyArg), AsI32(flagsArg), 0x200, keyMap)
  }

  /**
    As written, IPC_CREAT (bit 9) falls inside the ten-bit mode mask, so the
    remaining flags never contain it: a keyed segment is never created and
    EEXIST is never reported.
   */
  lemma ShmgetAsWrittenNeverCreatesKeyed(keyArg: nat, flagsArg: nat, keyMap: map<int, nat>)
    ensures !ShmgetPlanAsWritten(keyArg, flagsArg, keyMap).Ok? || !ShmgetPlanAsWritten(keyArg, flagsArg, keyMap).value.CreateKeyed?
    ensures ShmgetPlanAsWritten(keyArg, flagsArg, keyMap) != Err(EEXIST)
  {
    var flags := AsI32(flagsArg);
    var rest := flags - flags % 0x400;
    assert rest % 0x400 == 0;
    assert (rest / IPC_CREAT) % 2 == 0;
  }

  /** `shmget(42, IPC_CREAT | 0o666)` on a fresh key: ENOENT as written, a new keyed segment when corrected. */
  lemma ShmgetCreateCounterexample()
    ensures ShmgetPlanAsWritten(42, IPC_CREAT + 0x1b6, map[]) == Err(ENOENT)
    ensures ShmgetPlan(42, IPC_CREAT + 0x1b6, map[]) == Ok(CreateKeyed(42, 0x1b6))
  {
  }

  /**
    With the nine-bit mask, for a key other than IPC_PRIVATE and permission
    bits `perm`: IPC_CREAT creates a keyed segment with exactly those
    permissions when the key is new, and IPC_CREAT | IPC_EXCL on an existing
    key is EEXIST; without IPC_CREAT an existing key is reused and a new one
    is ENOENT. IPC_PRIVATE always creates a private segment.
   */
  lemma ShmgetCreatesWithPermissions(key: nat, perm: nat, keyMap: map<int, nat>)
    requires 0 < key < 0x8000_0000 && perm < 0x200
    ensures AsI32(key) !in keyMap ==> ShmgetPlan(key, IPC_CREAT + perm, keyMap) == Ok(CreateKeyed(key, perm))
    ensures AsI32(key) !in keyMap ==> ShmgetPlan(key, perm, keyMap) == Err(ENOENT)
    ensures AsI32(key) in keyMap ==> ShmgetPlan(key, IPC_CREAT + IPC_EXCL + perm, keyMap) == Err(EEXIST)
    ensures AsI32(key) in keyMap ==> ShmgetPlan(key, IPC_CREAT + perm, keyMap) == Ok(UseExisting(keyMap[key]))
    ensures AsI32(key) in keyMap ==> ShmgetPlan(key, perm, keyMap) == Ok(UseExisting(keyMap[key]))
    ensures ShmgetPlan(0, IPC_CREAT + perm, keyMap) == Ok(CreatePrivate(perm))
  {
    assert AsI32(key) == key;
    assert AsI32(perm) == perm;
    assert AsI32(IPC_CREAT + perm) == IPC_CREAT + perm;
    assert AsI32(IPC_CREAT + IPC_EXCL + perm) == IPC_CREAT + IPC_EXCL + perm;
  }

  /** A flag word with a bit above the `ShmFlags` bits is EINVAL whatever the key. */
  lemma ShmgetRejectsUnknownFlags(keyArg: nat, flags: nat, keyMap: map<int, nat>)
    requires 0x2000 <= flags < 0x8000_0000
    ensures ShmgetPlan(keyArg, flags, keyMap) == Err(EINVAL)
  {
    assert AsI32(flags) == flags;
  }

  /** `KEY_TO_SHMID`: the global map from IPC key to segment id. */
  class ShmKeyMap {
    var keyToShmid: map<int, nat>

    constructor ()
      ensures keyToShmid == map[]
    {
      keyToShmid := map[];
    }

    /**
      `shmget`, with the corrected mask. `created` is what creating a segment
      yields: its id, or `None` when creation fails (EINVAL). Only a created
      keyed segment enters the key map.
     */
    method Shmget(keyArg: nat, flagsArg: nat, created: Option<nat>) returns (r: SysResult<int>)
      modifies this`keyToShmid
      ensures var d := ShmgetPlan(keyArg, flagsArg, old(keyToShmid));
        && (d.Err? ==> r == Err(d.errno) && keyToShmid == old(keyToShmid))
        && (d.Ok? && d.value.UseExisting? ==> r == Ok(d.value.shmid) && keyToShmid == old(keyToShmid))
        && (d.Ok? && !d.value.UseExisting? && created.None? ==> r == Err(EINVAL) && keyToShmid == old(keyToShmid))
        && (d.Ok? && d.value.CreatePrivate? && created.Some? ==> r == Ok(created.value) && keyToShmid == old(keyToShmid))
        && (d.Ok? && d.value.CreateKeyed? && created.Some? ==>
              r == Ok(created.value) && keyToShmid == old(keyToShmid)[d.value.key := created.value])
    {
      var d := ShmgetPlan(keyArg, flagsArg, keyToShmid);
      match d
      case Err(e) => r := Err(e);
      case Panic => r := Panic;
      case Ok(UseExisting(id)) => r := Ok(id);
      case Ok(CreatePrivate(_)) =>
        r := if created.Some? then Ok(created.value) else Err(EINVAL);
      case Ok(CreateKeyed(k, _)) =>
        if created.Some? {
          keyToShmid := keyToShmid[k := created.value];
          r := Ok(created.value);
        } else {
          r := Err(EINVAL);
        }
    }
  }

  /** `ShmAtFlags` */
  const SHM_RDONLY: nat := 0x1000
  const SHM_RND: nat := 0x2000
  const SHM_REMAP: nat := 0x4000
  const SHM_EXEC: nat := 0x8000

  datatype MappingFlag = USER | READ | WRITE | EXECUTE

  /** The page permissions of an attached segment: always user-readable, writable unless read-only, executable on request. */
  function ShmatMappingFlags(rdonly: bool, exec: bool): (r: set<MappingFlag>)
    ensures USER in r && READ in r
    ensures WRITE in r <==> !rdonly
    ensures EXECUTE in r <==> exec
  {
    {USER, READ} + (if rdonly then {} else {WRITE}) + (if exec then {EXECUTE} else {})
  }

  /** Whether the `i32` flag word holds only `ShmAtFlags` bits. */
  predicate ShmatFlagsValid(flags: int)
  {
    0 <= flags < 0x1_0000 && flags % 0x1000 == 0
  }

  /**
    `shmat`: the address to attach at and the page permissions. `segmentSize`
    is the size of the segment `shmid` names (private first, then global), if
    any; `freeArea` is what the free-area search finds. Undefined flag bits
    panic, and so does a non-zero address without SHM_REMAP, which is
    unimplemented.
   */
  function Shmat(addr: nat, flagsArg: nat, segmentSize: Option<nat>, freeArea: Option<nat>): (r: SysResult<(nat, set<MappingFlag>)>)
    ensures !ShmatFlagsValid(AsI32(flagsArg)) ==> r == Panic
    ensures ShmatFlagsValid(AsI32(flagsArg)) && segmentSize.None? ==> r == Err(EINVAL)
    ensures ShmatFlagsValid(AsI32(flagsArg)) && segmentSize.Some? && addr == 0 ==>
      (freeArea.Some? ==> r.Ok? && r.value.0 == freeArea.value) && (freeArea.None? ==> r == Err(ENOMEM))
    ensures ShmatFlagsValid(AsI32(flagsArg)) && segmentSize.Some? && addr != 0 && addr % 0x1000 != 0 && (AsI32(flagsArg) / SHM_RND) % 2 == 0 ==>
      r == Err(EINVAL)
    ensures r.Ok? && addr != 0 ==>
      && (AsI32(flagsArg) / SHM_REMAP) % 2 == 1
      && r.value.0 % 0x1000 == 0 && addr <= r.value.0 < addr + 0x1000
    ensures r.Ok? ==>
      r.value.1 == ShmatMappingFlags((AsI32(flagsArg) / SHM_RDONLY) % 2 == 1, (AsI32(flagsArg) / SHM_EXEC) % 2 == 1)
  {
    var flags := AsI32(flagsArg);
    if !ShmatFlagsValid(flags) then Panic
    else if segmentSize.None? then Err(EINVAL)
    else
      var mapping := ShmatMappingFlags((flags / SHM_RDONLY) % 2 == 1, (flags / SHM_EXEC) % 2 == 1);
      if addr == 0 then
        if freeArea.Some? then Ok((freeArea.value, mapping)) else Err(ENOMEM)
      else if addr % 0x1000 != 0 && (flags / SHM_RND) % 2 == 0 then Err(EINVAL)
      else
        var at := if addr % 0x1000 == 0 then addr else AlignUp4k(addr);
        if (flags / SHM_REMAP) % 2 == 0 then Panic
        else Ok((at, mapping))
  }
}
