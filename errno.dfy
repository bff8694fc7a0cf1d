/** Error numbers of the Zephyr C library and of FatFs that the firmware
    returns, negated, from its storage calls. */
module Errno {
  const EPERM: int := 1
  /** What k_sem_take returns, negated, when its timeout expires. */
  const EAGAIN: int := 11
  const EEXIST: int := 17
  const ENODEV: int := 19
  const EINVAL: int := 22
  const ENAMETOOLONG: int := 91
  /** FatFs FR_INVALID_NAME. */
  const FR_INVALID_NAME: int := 6
}
