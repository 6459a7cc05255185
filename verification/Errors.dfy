/** What a call returns: a value, or one of the error codes. */
module Errors {

  /** `CALLBACK` stands for whatever error an event callback returns. */
  datatype Errno =
    | EPERM | EIO | EBADF | EAGAIN | ENOMEM | EACCES | EFAULT | EBUSY | ENODEV | EINVAL | ENODATA | EALREADY | CALLBACK

  datatype Result<+T> = Ok(value: T) | Err(errno: Errno)
}
