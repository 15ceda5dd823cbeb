/**
  Shared vocabulary of the syscall layer: optional values, the Linux error
  numbers the kernel reports, the result of a system call, and the machine
  word conversions (`as isize`, `as i32`) that the argument decoding performs.
 */
module Common {

  datatype Option<+T> = None | Some(value: T)

  /** The Linux error numbers that the modelled system calls can report. */
  datatype Errno =
    | EPERM | ENOENT | ESRCH | EINTR | EBADF | EAGAIN | ENOMEM | EFAULT
    | EEXIST | ENOTDIR | EISDIR | EINVAL | EMFILE | ERANGE | EPIPE

  /**
    The outcome of a system call: a value, an error number, or a kernel panic
    (an `unwrap` on a missing value, an `expect`, an `unimplemented!`).
   */
  datatype SysResult<+T> = Ok(value: T) | Err(errno: Errno) | Panic

  /** 2^64: the size of the machine word (usize / u64) on the 64-bit targets. */
  const WORD: nat := 0x1_0000_0000_0000_0000

  /** 2^32: the size of a u32 / i32. */
  const HALF_WORD: nat := 0x1_0000_0000

  /** A raw syscall argument reinterpreted as a signed machine word (`x as isize`). */
  function AsIsize(x: nat): (r: int)
    requires x < WORD
    ensures -0x8000_0000_0000_0000 <= r < 0x8000_0000_0000_0000
    ensures r < 0 <==> x >= 0x8000_0000_0000_0000
    ensures (r - x) % WORD == 0
  {
    if x < 0x8000_0000_0000_0000 then x else x - WORD
  }

  /** A raw syscall argument truncated to its low 32 bits and read as an i32 (`x as i32`). */
  function AsI32(x: nat): (r: int)
    ensures -0x8000_0000 <= r < 0x8000_0000
    ensures (r - x) % HALF_WORD == 0
  {
    var low := x % HALF_WORD;
    if low < 0x8000_0000 then low else low - HALF_WORD
  }
}
