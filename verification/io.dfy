/**
 * Shared vocabulary of the syscall layer: raw bytes, optional values and the
 * `io::Result` shape every operation returns.  A failure either carries the
 * kernel's error number (what `Error::from_raw_os_error` builds from a
 * negative syscall return) or one of the locally synthesised error kinds.
 */
module Io {

  /** A raw byte of a path, a name or an argument. */
  type byte = bv8

  /** `EINVAL`, the error number for an invalid argument on Linux. */
  const EINVAL: int := 22

  datatype Option<+T> = None | Some(value: T)

  /** The error kinds this layer synthesises without asking the kernel. */
  datatype ErrorKind = InvalidInput | Other

  datatype Error =
    | Os(code: int)            // an error number reported by (or for) the kernel
    | Simple(kind: ErrorKind)  // a locally built error of the given kind

  datatype Result<+T> = Ok(value: T) | Err(error: Error)
}
