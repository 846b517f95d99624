/** Results that may be missing, and the errno values of the lwIP glue. */
module Types {
  datatype Option<T> = None | Some(value: T)

  datatype Errno = EBADF | ENOTSOCK | ENFILE | EINVAL
}
