/** Small types shared by several components. */
module Basics {
  datatype Option<+T> = None | Some(value: T)

  type ReqId = nat

  /** Kernel error numbers, negated as the source returns them. */
  const EIO: int := -5
  const ENOMEM: int := -12
  const EBUSY: int := -16
  const EINVAL: int := -22
  const ENOENT: int := -2
  const EILSEQ: int := -84
  const EOPNOTSUPP: int := -95
  const ETIMEDOUT: int := -110

  function Min(a: int, b: int): int {
    if a < b then a else b
  }
}
