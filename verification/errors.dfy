/**
  The status type every wrapper operation returns (lmdbpp's `error_t`): a thin
  wrapper around the engine's integer result code. The code values are those of
  LMDB's public header and of POSIX `errno`; lmdb.h is not part of this model.
 */
module Errors {

  const MDB_SUCCESS: int := 0
  const MDB_KEYEXIST: int := -30799
  const MDB_NOTFOUND: int := -30798
  const MDB_INVALID: int := -30793
  const MDB_BAD_RSLOT: int := -30783
  const MDB_BAD_TXN: int := -30782
  const MDB_BAD_DBI: int := -30780
  const EPERM: int := 1
  const EINVAL: int := 22

  /** `error_t`: a raw result code; `Ok()` is `ok()` and `operator bool`. */
  datatype Status = Status(code: int) {
    predicate Ok() {
      code == MDB_SUCCESS
    }
  }

  /** The default-constructed `error_t`. */
  const Success: Status := Status(MDB_SUCCESS)

  /** `error_t(int)` followed by `code()` / `ok()`: the code is kept verbatim
      and the status is a success exactly when the code is `MDB_SUCCESS`. */
  function FromCode(code: int): (s: Status)
    ensures s.code == code
    ensures s.Ok() <==> code == MDB_SUCCESS
    ensures s.Ok() <==> s == Success
  {
    Status(code)
  }
}
