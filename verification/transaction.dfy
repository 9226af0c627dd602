/**
  The transaction wrapper (`txn_t`): a state of three fields (`txnptr_` null
  or not, `committed_`, the transaction type) plus whether the environment
  handle it copied at construction was null. `begin`, `commit`, `abort`,
  `reset` and `renew` return their guard codes or the engine's code; the
  engine calls each one issues are reported.
 */
module Transaction {
  import opened Errors
  import opened Engine
  import Environment

  datatype TxnType = ReadOnly | ReadWrite

  datatype Txn = Txn(
    hasEnv: bool,       // envptr_ != nullptr
    hasTxn: bool,       // txnptr_ != nullptr
    committed: bool,    // committed_
    kind: TxnType)      // type_

  /** Every reachable transaction holds a handle exactly when it is not
      marked committed. */
  predicate Valid(t: Txn) {
    t.hasTxn <==> !t.committed
  }

  /** `pending()`. */
  predicate Pending(t: Txn) {
    t.hasTxn && !t.committed
  }

  /** On reachable states `pending()` is just "a handle is held". */
  lemma PendingIsHandleHeld(t: Txn)
    requires Valid(t)
    ensures Pending(t) <==> t.hasTxn
  {
  }

  datatype Step = Step(txn: Txn, status: Status, calls: seq<Call>)

  /** `txn_t(env, type)`: copies the environment's handle, holds no
      transaction and begins none. */
  function New(env: Environment.Env, kind: TxnType): (t: Txn)
    ensures Valid(t) && !Pending(t) && !t.hasTxn
    ensures t.hasEnv == env.hasHandle && t.kind == kind
  {
    Txn(env.hasHandle, false, true, kind)
  }

  /** The flags `begin()` passes to `mdb_txn_begin`: MDB_RDONLY for a
      read-only transaction and no flag at all otherwise. */
  function BeginFlags(kind: TxnType): (f: FlagWord)
    ensures f == MDB_RDONLY <==> kind == ReadOnly
    ensures f <= MDB_RDONLY
  {
    if kind == ReadOnly then MDB_RDONLY else {}
  }

  /** Read as a flag test, the word `begin()` passes has MDB_RDONLY set
      exactly for a read-only transaction. */
  lemma BeginFlagsReadOnly(kind: TxnType)
    ensures HasFlag(BeginFlags(kind), MDB_RDONLY) <==> kind == ReadOnly
  {
    if kind == ReadOnly {
      assert 17 in BeginFlags(kind) * MDB_RDONLY;
    }
  }

  /** `begin()`: MDB_INVALID without an environment, MDB_BAD_TXN while a
      handle is held, otherwise the engine's code `rc`; on success the
      transaction is pending. */
  function Begin(t: Txn, rc: int): (r: Step)
    ensures !t.hasEnv ==> r == Step(t, Status(MDB_INVALID), [])
    ensures t.hasEnv && t.hasTxn ==> r == Step(t, Status(MDB_BAD_TXN), [])
    ensures t.hasEnv && !t.hasTxn ==> r.status == FromCode(rc) && |r.calls| == 1 && r.calls[0].TxnBegin?
    ensures t.hasEnv && !t.hasTxn ==>
      (r.calls[0].txnFlags == MDB_RDONLY <==> t.kind == ReadOnly) && r.calls[0].txnFlags <= MDB_RDONLY
    ensures r.status.Ok() ==> Pending(r.txn) && r.txn.hasEnv && r.txn.kind == t.kind
    ensures !r.status.Ok() ==> r.txn == t
    ensures r.status.Ok() ==> !t.hasTxn
  {
    if !t.hasEnv then Step(t, Status(MDB_INVALID), [])
    else if t.hasTxn then Step(t, Status(MDB_BAD_TXN), [])
    else
      var calls := [TxnBegin(BeginFlags(t.kind))];
      if rc != MDB_SUCCESS then Step(t, Status(rc), calls)
      else Step(t.(hasTxn := true, committed := false), Success, calls)
  }

  /** `commit()`: MDB_BAD_TXN without a handle; otherwise the engine's code
      `rc`. The handle is released only when the engine reports success; a
      failed commit keeps it. */
  function Commit(t: Txn, rc: int): (r: Step)
    ensures !t.hasTxn ==> r == Step(t, Status(MDB_BAD_TXN), [])
    ensures t.hasTxn ==> r.status == FromCode(rc) && r.calls == [TxnCommit]
    ensures t.hasTxn && rc == MDB_SUCCESS ==> !r.txn.hasTxn && r.txn.committed && !Pending(r.txn)
    ensures rc != MDB_SUCCESS ==> r.txn == t
    ensures r.txn.hasEnv == t.hasEnv && r.txn.kind == t.kind
  {
    if !t.hasTxn then Step(t, Status(MDB_BAD_TXN), [])
    else if rc != MDB_SUCCESS then Step(t, Status(rc), [TxnCommit])
    else Step(t.(committed := true, hasTxn := false), Success, [TxnCommit])
  }

  /** `abort()`: MDB_BAD_TXN without a handle; otherwise the handle is always
      released. */
  function Abort(t: Txn): (r: Step)
    ensures !t.hasTxn ==> r == Step(t, Status(MDB_BAD_TXN), [])
    ensures t.hasTxn ==> r.status.Ok() && r.calls == [TxnAbort]
    ensures !r.txn.hasTxn && r.txn.committed == (t.hasTxn || t.committed)
    ensures r.txn.hasEnv == t.hasEnv && r.txn.kind == t.kind
  {
    if !t.hasTxn then Step(t, Status(MDB_BAD_TXN), [])
    else Step(t.(hasTxn := false, committed := true), Success, [TxnAbort])
  }

  /** `reset()`: MDB_INVALID without a handle, MDB_BAD_TXN on a read-write
      transaction; otherwise releases the snapshot and leaves the
      transaction pending. */
  function Reset(t: Txn): (r: Step)
    ensures !t.hasTxn ==> r == Step(t, Status(MDB_INVALID), [])
    ensures t.hasTxn && t.kind == ReadWrite ==> r == Step(t, Status(MDB_BAD_TXN), [])
    ensures t.hasTxn && t.kind == ReadOnly ==> r.status.Ok() && r.calls == [TxnReset] && Pending(r.txn)
    ensures r.txn.hasTxn == t.hasTxn && r.txn.hasEnv == t.hasEnv && r.txn.kind == t.kind
  {
    if !t.hasTxn then Step(t, Status(MDB_INVALID), [])
    else if t.kind != ReadOnly then Step(t, Status(MDB_BAD_TXN), [])
    else Step(t.(committed := false), Success, [TxnReset])
  }

  /** `renew()` as written: the result code of `mdb_txn_renew` is discarded,
      so the wrapper reports success and a pending transaction whatever the
      engine answered. */
  function RenewAsWritten(t: Txn, rc: int): (r: Step)
    ensures !t.hasTxn ==> r == Step(t, Status(MDB_INVALID), [])
    ensures t.hasTxn && t.kind == ReadWrite ==> r == Step(t, Status(MDB_BAD_TXN), [])
    ensures t.hasTxn && t.kind == ReadOnly ==> r.status.Ok() && r.calls == [TxnRenew] && Pending(r.txn)
    ensures r.txn.hasTxn == t.hasTxn && r.txn.hasEnv == t.hasEnv && r.txn.kind == t.kind
  {
    if !t.hasTxn then Step(t, Status(MDB_INVALID), [])
    else if t.kind != ReadOnly then Step(t, Status(MDB_BAD_TXN), [])
    else Step(t.(committed := false), Success, [TxnRenew])
  }

  /** `renew()` with the engine's code passed back, as `begin()` and
      `commit()` do: MDB_INVALID without a handle, MDB_BAD_TXN on a
      read-write transaction, otherwise `rc`; it reports success exactly when
      the engine renewed the snapshot. */
  function Renew(t: Txn, rc: int): (r: Step)
    ensures !t.hasTxn ==> r == Step(t, Status(MDB_INVALID), [])
    ensures t.hasTxn && t.kind == ReadWrite ==> r == Step(t, Status(MDB_BAD_TXN), [])
    ensures t.hasTxn && t.kind == ReadOnly ==> r.status == FromCode(rc) && r.calls == [TxnRenew]
    ensures r.status.Ok() ==> Pending(r.txn)
    ensures t.hasTxn && t.kind == ReadOnly && rc != MDB_SUCCESS ==> r.txn == t
    ensures r.txn.hasTxn == t.hasTxn && r.txn.hasEnv == t.hasEnv && r.txn.kind == t.kind
  {
    if !t.hasTxn then Step(t, Status(MDB_INVALID), [])
    else if t.kind != ReadOnly then Step(t, Status(MDB_BAD_TXN), [])
    else if rc != MDB_SUCCESS then Step(t, Status(rc), [TxnRenew])
    else Step(t.(committed := false), Success, [TxnRenew])
  }

  /** The source's `renew()` reports success even when the engine refuses,
      e.g. with MDB_BAD_RSLOT, where the corrected `Renew` passes the
      engine's code back. */
  lemma RenewAsWrittenHidesEngineError(t: Txn)
    requires t.hasTxn && t.kind == ReadOnly
    ensures RenewAsWritten(t, MDB_BAD_RSLOT).status.Ok()
    ensures Renew(t, MDB_BAD_RSLOT).status.code == MDB_BAD_RSLOT
  {
  }

  datatype Cleaned = Cleaned(txn: Txn, calls: seq<Call>)

  /** `cleanup()`: aborts a pending transaction, then clears the handle and
      marks the object committed. */
  function Cleanup(t: Txn): (r: Cleaned)
    ensures r.calls == (if Pending(t) then [TxnAbort] else [])
    ensures !r.txn.hasTxn && r.txn.committed && Valid(r.txn)
    ensures r.txn.hasEnv == t.hasEnv && r.txn.kind == t.kind
  {
    Cleaned(t.(hasTxn := false, committed := true), if Pending(t) then [TxnAbort] else [])
  }

  datatype Moved = Moved(target: Txn, source: Txn, calls: seq<Call>)

  /** The move constructor: the new object takes all four fields; the source
      keeps only its type. */
  function MoveConstruct(src: Txn): (m: Moved)
    ensures m.target == src && m.calls == []
    ensures m.source == Txn(false, false, true, src.kind)
  {
    Moved(src, src.(hasEnv := false, hasTxn := false, committed := true), [])
  }

  /** Move assignment between distinct objects: the target's pending
      transaction is aborted by `cleanup()` before it takes the source's
      fields. */
  function MoveAssign(dst: Txn, src: Txn): (m: Moved)
    ensures m.target == src
    ensures m.source == MoveConstruct(src).source
    ensures m.calls == (if Pending(dst) then [TxnAbort] else [])
  {
    Moved(src, MoveConstruct(src).source, Cleanup(dst).calls)
  }

  /** A moved-from transaction cannot begin: its environment handle is gone. */
  lemma MovedFromCannotBegin(src: Txn, rc: int)
    ensures Begin(MoveConstruct(src).source, rc).status.code == MDB_INVALID
  {
  }

  /** Reusability: after `abort()`, or after a `commit()` the engine accepts,
      `begin()` passes both guards and returns the engine's code. */
  lemma BeginAfterEnd(t: Txn, commitRc: int, rc: int)
    requires t.hasEnv && t.hasTxn
    ensures Begin(Abort(t).txn, rc).status == FromCode(rc)
    ensures commitRc == MDB_SUCCESS ==> Begin(Commit(t, commitRc).txn, rc).status == FromCode(rc)
    ensures commitRc != MDB_SUCCESS ==> Begin(Commit(t, commitRc).txn, rc).status.code == MDB_BAD_TXN
  {
  }

  /** `reset()` on a read-write transaction fails with MDB_BAD_TXN and the
      transaction stays pending and usable; on a read-only one, `reset()`
      then `renew()` leaves it pending. */
  lemma ResetRenewCycle(t: Txn, rc: int)
    requires Valid(t) && Pending(t)
    ensures t.kind == ReadWrite ==> Reset(t).status.code == MDB_BAD_TXN && Pending(Reset(t).txn)
    ensures t.kind == ReadOnly ==> Reset(t).status.Ok() && Pending(Reset(t).txn)
    ensures t.kind == ReadOnly && rc == MDB_SUCCESS ==> Renew(Reset(t).txn, rc).status.Ok() && Pending(Renew(Reset(t).txn, rc).txn)
  {
  }

  /** One operation of a transaction's life, with the engine's code where it
      has one. */
  datatype Op =
    | BeginOp(beginRc: int)
    | CommitOp(commitRc: int)
    | AbortOp
    | ResetOp
    | RenewOp(renewRc: int)          // the corrected renew()
    | RenewAsWrittenOp(renewRc: int) // renew() as written
    | CleanupOp

  function Apply(t: Txn, op: Op): Txn {
    match op
    case BeginOp(rc) => Begin(t, rc).txn
    case CommitOp(rc) => Commit(t, rc).txn
    case AbortOp => Abort(t).txn
    case ResetOp => Reset(t).txn
    case RenewOp(rc) => Renew(t, rc).txn
    case RenewAsWrittenOp(rc) => RenewAsWritten(t, rc).txn
    case CleanupOp => Cleanup(t).txn
  }

  /** Every operation, `renew()` as written as well as the corrected one,
      keeps a reachable state reachable and changes neither the type nor the
      environment. */
  lemma ApplyPreservesValid(t: Txn, op: Op)
    requires Valid(t)
    ensures Valid(Apply(t, op))
    ensures Apply(t, op).kind == t.kind && Apply(t, op).hasEnv == t.hasEnv
  {
  }

  function Run(t: Txn, ops: seq<Op>): Txn
    decreases |ops|
  {
    if |ops| == 0 then t else Run(Apply(t, ops[0]), ops[1..])
  }

  /** Along any sequence of operations a transaction object stays in a
      reachable state, keeps its type and environment, and so never holds
      more than the one handle `pending()` reports. */
  lemma {:induction false} RunPreservesValid(t: Txn, ops: seq<Op>)
    requires Valid(t)
    ensures Valid(Run(t, ops))
    ensures Run(t, ops).kind == t.kind && Run(t, ops).hasEnv == t.hasEnv
    ensures Pending(Run(t, ops)) <==> Run(t, ops).hasTxn
    decreases |ops|
  {
    if |ops| > 0 {
      ApplyPreservesValid(t, ops[0]);
      RunPreservesValid(Apply(t, ops[0]), ops[1..]);
    }
  }
}
