/** Small datatypes shared by every component of the model. */
module Basics {

  newtype byte = x: int | 0 <= x < 256

  datatype Option<+T> = None | Some(value: T)

  datatype Outcome<+T> = Ok(value: T) | Fail(error: Errno)

  /** The error numbers the checks name. */
  datatype Errno =
    | EAGAIN | EBADF | EEXIST | EINVAL | ELOOP | EMFILE | ENOENT
    | ENOMEM | EOVERFLOW | EPIPE | ESPIPE | ESRCH

  /** What an lseek offset is relative to. */
  datatype Whence = SeekSet | SeekCur | SeekEnd

  function Min(a: nat, b: nat): nat {
    if a < b then a else b
  }

  function Max(a: nat, b: nat): nat {
    if a < b then b else a
  }

  /** The pattern (i + seed) mod 256. */
  method FillPattern(buf: array<byte>, seed: byte)
    modifies buf
    ensures forall i | 0 <= i < buf.Length :: buf[i] as int == (i + seed as int) % 256
  {
    var i := 0;
    while i < buf.Length
      invariant 0 <= i <= buf.Length
      invariant forall j | 0 <= j < i :: buf[j] as int == (j + seed as int) % 256
    {
      buf[i] := ((i + seed as int) % 256) as byte;
      i := i + 1;
    }
  }
}
