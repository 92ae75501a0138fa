/** Optional values, results and outcomes of file operations shared by the other modules. */
module Wrappers {
  datatype Option<+T> = None | Some(value: T)

  datatype Result<+T, +E> = Ok(value: T) | Err(error: E)

  function Min(a: int, b: int): int { if a <= b then a else b }

  function Max(a: int, b: int): int { if a >= b then a else b }

  /** Unsigned subtraction that stops at zero. */
  function SatSub(a: nat, b: nat): nat { if a >= b then a - b else 0 }

  const U32_MAX: nat := 0xFFFF_FFFF

  /** 32-bit unsigned addition that stops at the largest value. */
  function SatAdd(a: nat, b: nat): nat { if a + b <= U32_MAX then a + b else U32_MAX }

  datatype Locking = Free | Held | Broken

  datatype Reading = Readable | Unreadable | Malformed

  /** A failed write may or may not have replaced the file. */
  datatype Written = Complete | Failed(applied: bool)
}
