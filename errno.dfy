/** Linux errno values used by the iovar client (positive, as in <errno.h>;
    the client reports them negated). */
module Errno {
  const ENOMEM: int := 12
  const ENODATA: int := 61
  const EINPROGRESS: int := 115
}
