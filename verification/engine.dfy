/**
  The narrow interface to the storage engine. The engine itself is opaque:
  every operation of the wrapper receives the result code of each engine call
  it may issue as a parameter, and reports the calls it actually issued as a
  trace of `Call` values, in order. Machine integers, byte buffers and the
  flag words passed to the engine are defined here too.
 */
module Engine {

  type u32 = x: int | 0 <= x < 0x1_0000_0000
  type u64 = x: int | 0 <= x < 0x1_0000_0000_0000_0000

  /** The bytes an `MDB_val` designates; its address is not modelled. */
  type Bytes = seq<bv8>

  /** A filesystem path, as text. */
  type Path = string

  /** An `unsigned int` flag word, as the set of its one bits (0 to 31):
      `|` is union, `& ~f` is difference and `w & f != 0` is a shared bit. */
  type FlagWord = s: set<nat> | forall b | b in s :: b < 32

  // Engine flags used by the wrapper (LMDB's public header), and the
  // wrapper's own high-bit flag.
  const MDB_NOSUBDIR: FlagWord := {14}    // 0x4000
  const MDB_RDONLY: FlagWord := {17}      // 0x20000
  const MDB_EPHEMERAL: FlagWord := {28}   // 0x10000000

  /** `flags & flag`, read as a condition. */
  predicate HasFlag(flags: FlagWord, flag: FlagWord) {
    flags * flag != {}
  }

  /** The fold `(0 | ... | flags)` over a variadic flag list, left to right. */
  function FoldFlags(flags: seq<FlagWord>): FlagWord
  {
    if |flags| == 0 then {} else FoldFlags(flags[..|flags| - 1]) + flags[|flags| - 1]
  }

  /** A bit is set in the folded word exactly when some flag of the list
      sets it, so the fold carries every flag and nothing else. */
  lemma {:induction false} FoldFlagsIsUnion(flags: seq<FlagWord>, bit: nat)
    ensures bit in FoldFlags(flags) <==> exists i :: 0 <= i < |flags| && bit in flags[i]
  {
    if |flags| > 0 {
      var n := |flags| - 1;
      var init := flags[..n];
      FoldFlagsIsUnion(init, bit);
      assert forall i :: 0 <= i < n ==> init[i] == flags[i];
      if bit in FoldFlags(init) {
        var i :| 0 <= i < n && bit in init[i];
        assert bit in flags[i];
      }
    }
  }

  /** The name argument of `mdb_dbi_open`: a null pointer for the unnamed
      database, otherwise the name's characters. */
  datatype DbName = Unnamed | Named(name: string)

  /** The data argument of `mdb_del`: a null pointer, or a value to match. */
  datatype DelData = AnyData | ExactData(data: Bytes)

  /** One engine call as the wrapper issues it, with the arguments that the
      wrapper computes (handles are implicit). */
  datatype Call =
    | EnvCreate
    | EnvClose
    | EnvSetMaxDbs(dbs: u32)
    | EnvSetMaxReaders(readers: u32)
    | EnvSetMapSize(size: u64)
    | EnvOpen(path: Path, flags: FlagWord, mode: u32)
    | ReaderCheck
    | EnvSync(force: bool)
    | TxnBegin(txnFlags: FlagWord)
    | TxnCommit
    | TxnAbort
    | TxnReset
    | TxnRenew
    | DbiOpen(dbName: DbName, dbFlags: FlagWord)
    | DbDrop(dbi: u32, del: bool)
    | DbStat(dbi: u32)
    | DbPut(dbi: u32, key: Bytes, val: Bytes, putFlags: FlagWord)
    | DbGet(dbi: u32, key: Bytes)
    | DbDel(dbi: u32, key: Bytes, data: DelData)
}
