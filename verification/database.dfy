/**
  The database handle wrapper (`dbi_t`): the `opened_` flag and the engine's
  `MDB_dbi` value, the guard clauses of `open`, `erase`, `drop`, `stat`,
  `put`, `get` and both `del` overloads, and the composition of the record
  operations with the value codec. Every operation takes the transaction it
  runs in and checks that transaction's handle.
 */
module Database {
  import opened Errors
  import opened Engine
  import opened Codec
  import Transaction

  datatype Dbi = Dbi(dbi: u32, isOpen: bool)

  /** A default-constructed handle. */
  const Unopened: Dbi := Dbi(0, false)

  datatype Step = Step(db: Dbi, status: Status, calls: seq<Call>)

  // ---------------------------------------------------------------------------
  // The database name: a `std::string_view` handed on as a C string

  /** A window of `len` characters at `start` in a character array. */
  datatype Window = Window(chars: string, start: nat, len: nat)

  /** `std::string_view`: a window that lies inside its array. */
  type StringView = w: Window | w.start + w.len <= |w.chars| witness Window([], 0, 0)

  /** The characters a view designates. */
  function Content(v: StringView): string {
    v.chars[v.start..v.start + v.len]
  }

  /** What a `const char*` designates when read as a C string: the
      characters up to the first NUL. The model stops at the end of the array
      when it holds no NUL. */
  function CString(s: string): (c: string)
    ensures c <= s && '\0' !in c
    ensures |c| < |s| ==> s[|c|] == '\0'
  {
    if s == [] || s[0] == '\0' then [] else [s[0]] + CString(s[1..])
  }

  /** The C string of an array whose first NUL is at `k` is its first `k`
      characters. */
  lemma CStringBeforeNul(s: string, k: nat)
    requires k < |s| && s[k] == '\0' && '\0' !in s[..k]
    ensures CString(s) == s[..k]
  {
    var c := CString(s);
    forall i | 0 <= i < k ensures s[i] != '\0' {
      assert s[i] == s[..k][i];
    }
    assert forall i | 0 <= i < |c| :: c[i] == s[i];
  }

  /** The name argument of `mdb_dbi_open` as written: null for an empty
      view, otherwise the view's `data()` read as a C string. The read runs
      to the first NUL of the array, which may lie past the view's end or
      inside it. */
  function NameArgAsWritten(name: StringView): (n: DbName)
    ensures n.Unnamed? <==> name.len == 0
    ensures n.Named? ==> n.name == CString(name.chars[name.start..])
  {
    if name.len == 0 then Unnamed else Named(CString(name.chars[name.start..]))
  }

  /** The name argument `open()` evidently means to pass: null for an empty
      view, otherwise the view's own characters as a terminated copy, so the
      engine reads the name and nothing beyond it (a C string cannot carry
      an embedded NUL, so the name ends at one). */
  function NameArg(name: StringView): (n: DbName)
    ensures n.Unnamed? <==> name.len == 0
    ensures n.Named? ==> n.name <= Content(name) && '\0' !in n.name
    ensures n.Named? && |n.name| < name.len ==> Content(name)[|n.name|] == '\0'
    ensures name.len > 0 && '\0' !in Content(name) ==> n == Named(Content(name))
  {
    if name.len == 0 then Unnamed else Named(CString(Content(name)))
  }

  /** A view that ends before the end of its array is read past its end:
      `std::string_view("storeXYZ").substr(0, 5)` opens the database
      "storeXYZ" instead of "store". */
  lemma NameArgAsWrittenReadsPastView()
    ensures var v: StringView := Window("storeXYZ\0", 0, 5);
      NameArgAsWritten(v) == Named("storeXYZ") && NameArg(v) == Named("store")
  {
    var v: StringView := Window("storeXYZ\0", 0, 5);
    CStringBeforeNul(v.chars, 8);
    assert v.chars[..8] == "storeXYZ";
    assert Content(v) == "store";
  }

  /** For a view of a whole `std::string` without embedded NUL, whose array
      holds a NUL just past the view, the code as written passes the name
      as is. */
  lemma NameArgAsWrittenOnWholeString(name: StringView)
    requires name.len > 0 && name.start + name.len < |name.chars|
    requires name.chars[name.start + name.len] == '\0' && '\0' !in Content(name)
    ensures NameArgAsWritten(name) == NameArg(name) == Named(Content(name))
  {
    var rest := name.chars[name.start..];
    assert rest[..name.len] == Content(name);
    CStringBeforeNul(rest, name.len);
  }

  /** `open(txn, name, flags...)`: MDB_BAD_DBI if already open, MDB_BAD_TXN
      if the transaction holds no handle; otherwise `mdb_dbi_open`'s code
      `rc`, which stores `out` as the handle on success. Afterwards the
      handle is open exactly when the engine succeeded. */
  function Open(d: Dbi, txn: Transaction.Txn, name: StringView, flags: seq<FlagWord>, rc: int, out: u32): (r: Step)
    ensures d.isOpen ==> r == Step(d, Status(MDB_BAD_DBI), [])
    ensures !d.isOpen && !txn.hasTxn ==> r == Step(d, Status(MDB_BAD_TXN), [])
    ensures !d.isOpen && txn.hasTxn ==>
      r.status == FromCode(rc) && r.db.isOpen == (rc == MDB_SUCCESS) &&
      r.calls == [DbiOpen(NameArg(name), FoldFlags(flags))]
    ensures r.db.isOpen ==> r.db.dbi == (if d.isOpen then d.dbi else out)
  {
    if d.isOpen then Step(d, Status(MDB_BAD_DBI), [])
    else if !txn.hasTxn then Step(d, Status(MDB_BAD_TXN), [])
    else
      var calls := [DbiOpen(NameArg(name), FoldFlags(flags))];
      if rc == MDB_SUCCESS then Step(Dbi(out, true), Success, calls)
      else Step(d.(isOpen := false), Status(rc), calls)
  }

  /** `open(txn, name, flags...)` as written: the same guards and result,
      but the engine receives `name.data()` read as a C string. */
  function OpenAsWritten(d: Dbi, txn: Transaction.Txn, name: StringView, flags: seq<FlagWord>, rc: int, out: u32): (r: Step)
    ensures d.isOpen ==> r == Step(d, Status(MDB_BAD_DBI), [])
    ensures !d.isOpen && !txn.hasTxn ==> r == Step(d, Status(MDB_BAD_TXN), [])
    ensures !d.isOpen && txn.hasTxn ==>
      r.status == FromCode(rc) && r.db.isOpen == (rc == MDB_SUCCESS) &&
      r.calls == [DbiOpen(NameArgAsWritten(name), FoldFlags(flags))]
    ensures r.db.isOpen ==> r.db.dbi == (if d.isOpen then d.dbi else out)
  {
    if d.isOpen then Step(d, Status(MDB_BAD_DBI), [])
    else if !txn.hasTxn then Step(d, Status(MDB_BAD_TXN), [])
    else
      var calls := [DbiOpen(NameArgAsWritten(name), FoldFlags(flags))];
      if rc == MDB_SUCCESS then Step(Dbi(out, true), Success, calls)
      else Step(d.(isOpen := false), Status(rc), calls)
  }

  /** The corrected `open` differs from the code as written only in the name
      the engine receives: the handle and the result are the same. */
  lemma OpenDiffersOnlyInName(d: Dbi, txn: Transaction.Txn, name: StringView, flags: seq<FlagWord>, rc: int, out: u32)
    ensures var o := Open(d, txn, name, flags, rc, out);
      var w := OpenAsWritten(d, txn, name, flags, rc, out);
      o.db == w.db && o.status == w.status && |o.calls| == |w.calls| &&
      (w.calls != [] ==> o.calls == [w.calls[0].(dbName := NameArg(name))])
  {
  }

  /** `open(txn, std::string_view("storeXYZ").substr(0, 5))` as written opens
      the database "storeXYZ"; the corrected `open` opens "store". */
  lemma OpenAsWrittenReadsPastView(d: Dbi, txn: Transaction.Txn, rc: int, out: u32)
    requires !d.isOpen && txn.hasTxn
    ensures var v: StringView := Window("storeXYZ\0", 0, 5);
      OpenAsWritten(d, txn, v, [], rc, out).calls == [DbiOpen(Named("storeXYZ"), {})] &&
      Open(d, txn, v, [], rc, out).calls == [DbiOpen(Named("store"), {})]
  {
    NameArgAsWrittenReadsPastView();
  }

  /** For a view of a whole NUL-terminated string without embedded NUL, the
      code as written and the corrected `open` agree. */
  lemma OpenAsWrittenOnWholeString(d: Dbi, txn: Transaction.Txn, name: StringView, flags: seq<FlagWord>, rc: int, out: u32)
    requires name.len > 0 && name.start + name.len < |name.chars|
    requires name.chars[name.start + name.len] == '\0' && '\0' !in Content(name)
    ensures OpenAsWritten(d, txn, name, flags, rc, out) == Open(d, txn, name, flags, rc, out)
  {
    NameArgAsWrittenOnWholeString(name);
  }

  /** The guard shared by `stat`, `put`, `get` and both `del` overloads. */
  predicate Usable(d: Dbi, txn: Transaction.Txn) {
    d.isOpen && txn.hasTxn
  }

  /** `erase(txn)`: MDB_BAD_DBI unless open with a live transaction; then
      `mdb_drop(.., 0)`. The handle is not changed. */
  function Erase(d: Dbi, txn: Transaction.Txn, rc: int): (r: Step)
    ensures r.db == d
    ensures !Usable(d, txn) ==> r == Step(d, Status(MDB_BAD_DBI), [])
    ensures Usable(d, txn) ==> r.status == FromCode(rc) && r.calls == [DbDrop(d.dbi, false)]
  {
    if !Usable(d, txn) then Step(d, Status(MDB_BAD_DBI), [])
    else Step(d, Status(rc), [DbDrop(d.dbi, false)])
  }

  /** `drop(txn)`: MDB_BAD_DBI unless open with a live transaction; then
      `mdb_drop(.., 1)`, after which the handle is closed only if the engine
      succeeded. */
  function Drop(d: Dbi, txn: Transaction.Txn, rc: int): (r: Step)
    ensures r.db.dbi == d.dbi
    ensures !Usable(d, txn) ==> r == Step(d, Status(MDB_BAD_DBI), [])
    ensures Usable(d, txn) ==> r.status == FromCode(rc) && r.calls == [DbDrop(d.dbi, true)]
    ensures r.db.isOpen <==> d.isOpen && !(Usable(d, txn) && rc == MDB_SUCCESS)
  {
    if !Usable(d, txn) then Step(d, Status(MDB_BAD_DBI), [])
    else Step(if rc == MDB_SUCCESS then d.(isOpen := false) else d, Status(rc), [DbDrop(d.dbi, true)])
  }

  /** `stat(txn, out)`: MDB_BAD_TXN unless usable, else `mdb_stat`'s code.
      The statistics record the engine fills in is not modelled. */
  function Stat(d: Dbi, txn: Transaction.Txn, rc: int): (r: Step)
    ensures r.db == d
    ensures !Usable(d, txn) ==> r == Step(d, Status(MDB_BAD_TXN), [])
    ensures Usable(d, txn) ==> r.status == FromCode(rc) && r.calls == [DbStat(d.dbi)]
  {
    if !Usable(d, txn) then Step(d, Status(MDB_BAD_TXN), [])
    else Step(d, Status(rc), [DbStat(d.dbi)])
  }

  /** `put(txn, key, value, flags...)`: MDB_BAD_TXN unless usable;
      otherwise one `mdb_put` with the encoded key and value and the OR of the
      flags, whose code `rc` is returned. Both types must be
      `SerializableLike`, so neither encoding can fail. */
  function Put(d: Dbi, txn: Transaction.Txn, kt: TypeDesc, key: Value, vt: TypeDesc, value: Value,
               flags: seq<FlagWord>, rc: int): (r: Step)
    requires SerializableLike(kt) && SerializableLike(vt)
    ensures r.db == d
    ensures !Usable(d, txn) ==> r == Step(d, Status(MDB_BAD_TXN), [])
    ensures Usable(d, txn) ==>
      r.status == FromCode(rc) &&
      r.calls == [DbPut(d.dbi, Meaning(kt, key), Meaning(vt, value), FoldFlags(flags))]
  {
    if !Usable(d, txn) then Step(d, Status(MDB_BAD_TXN), [])
    else Step(d, Status(rc), [DbPut(d.dbi, Encode(kt, key).val, Encode(vt, value).val, FoldFlags(flags))])
  }

  /** What `mdb_get` answers: its code and, on success, the stored bytes. */
  datatype GetReply = GetReply(rc: int, data: Bytes)

  datatype Got = Got(status: Status, out: Value, calls: seq<Call>)

  /** `get(txn, key, out)`: MDB_BAD_TXN unless usable; an engine failure
      (MDB_NOTFOUND among them) unchanged and before any decoding, leaving
      `out` untouched; otherwise the stored bytes decoded into `out`. */
  function Get(d: Dbi, txn: Transaction.Txn, kt: TypeDesc, key: Value, ot: TypeDesc, out: Value,
               reply: GetReply): (r: Got)
    requires SerializableLike(kt) && SerializableLike(ot)
    ensures !Usable(d, txn) ==> r == Got(Status(MDB_BAD_TXN), out, [])
    ensures Usable(d, txn) ==> r.calls == [DbGet(d.dbi, Meaning(kt, key))]
    ensures Usable(d, txn) && reply.rc != MDB_SUCCESS ==> r.status.code == reply.rc && r.out == out
    ensures Usable(d, txn) && reply.rc == MDB_SUCCESS ==>
      r.status == Decode(reply.data, ot, out).status && r.out == Decode(reply.data, ot, out).out
    ensures !r.status.Ok() ==> r.out == out
  {
    if !Usable(d, txn) then Got(Status(MDB_BAD_TXN), out, [])
    else
      var calls := [DbGet(d.dbi, Encode(kt, key).val)];
      if reply.rc != MDB_SUCCESS then Got(Status(reply.rc), out, calls)
      else
        var dec := Decode(reply.data, ot, out);
        Got(dec.status, dec.out, calls)
  }

  /** `del(txn, key)`: MDB_BAD_TXN unless usable; otherwise `mdb_del` with
      the encoded key and a null data argument. */
  function Del(d: Dbi, txn: Transaction.Txn, kt: TypeDesc, key: Value, rc: int): (r: Step)
    requires SerializableLike(kt)
    ensures r.db == d
    ensures !Usable(d, txn) ==> r == Step(d, Status(MDB_BAD_TXN), [])
    ensures Usable(d, txn) ==> r.status == FromCode(rc) && r.calls == [DbDel(d.dbi, Meaning(kt, key), AnyData)]
  {
    if !Usable(d, txn) then Step(d, Status(MDB_BAD_TXN), [])
    else Step(d, Status(rc), [DbDel(d.dbi, Encode(kt, key).val, AnyData)])
  }

  /** `del(txn, key, value)`: as `del(txn, key)`, but the encoded value is
      passed so that only that exact pair is removed. */
  function DelPair(d: Dbi, txn: Transaction.Txn, kt: TypeDesc, key: Value, vt: TypeDesc, value: Value,
                   rc: int): (r: Step)
    requires SerializableLike(kt) && SerializableLike(vt)
    ensures r.db == d
    ensures !Usable(d, txn) ==> r == Step(d, Status(MDB_BAD_TXN), [])
    ensures Usable(d, txn) ==>
      r.status == FromCode(rc) && r.calls == [DbDel(d.dbi, Meaning(kt, key), ExactData(Meaning(vt, value)))]
  {
    if !Usable(d, txn) then Step(d, Status(MDB_BAD_TXN), [])
    else Step(d, Status(rc), [DbDel(d.dbi, Encode(kt, key).val, ExactData(Encode(vt, value).val))])
  }

  datatype Moved = Moved(target: Dbi, source: Dbi)

  /** Move construction and move assignment between distinct objects: the
      target takes both fields and the source is no longer open. */
  function Move(src: Dbi): (m: Moved)
    ensures m.target == src
    ensures !m.source.isOpen && m.source.dbi == src.dbi
  {
    Moved(src, src.(isOpen := false))
  }

  /** A handle cannot be opened twice: a second `open()` is refused before
      any engine call, and `drop()` followed by `open()` reaches the engine
      again. */
  lemma NoReopen(d: Dbi, txn: Transaction.Txn, name: StringView, flags: seq<FlagWord>, rc: int, out: u32, dropRc: int)
    requires !d.isOpen && txn.hasTxn && rc == MDB_SUCCESS
    ensures var o := Open(d, txn, name, flags, rc, out);
      Open(o.db, txn, name, flags, rc, out) == Step(o.db, Status(MDB_BAD_DBI), [])
    ensures var o := Open(d, txn, name, flags, rc, out);
      dropRc == MDB_SUCCESS ==> Open(Drop(o.db, txn, dropRc).db, txn, name, flags, rc, out).status.Ok()
    ensures var o := Open(d, txn, name, flags, rc, out);
      Erase(o.db, txn, dropRc).db.isOpen
  {
  }

  /** A committed or aborted transaction can no longer be used by any record
      operation: its handle is gone, so every one is refused with
      MDB_BAD_TXN before reaching the engine. */
  lemma EndedTransactionRefused(d: Dbi, t: Transaction.Txn, kt: TypeDesc, key: Value, vt: TypeDesc,
                                value: Value, out: Value, reply: GetReply, rc: int)
    requires t.hasTxn && SerializableLike(kt) && SerializableLike(vt)
    ensures var ended := Transaction.Abort(t).txn;
      Get(d, ended, kt, key, vt, out, reply) == Got(Status(MDB_BAD_TXN), out, []) &&
      Put(d, ended, kt, key, vt, value, [], rc) == Step(d, Status(MDB_BAD_TXN), []) &&
      Del(d, ended, kt, key, rc) == Step(d, Status(MDB_BAD_TXN), []) &&
      DelPair(d, ended, kt, key, vt, value, rc) == Step(d, Status(MDB_BAD_TXN), []) &&
      Stat(d, ended, rc) == Step(d, Status(MDB_BAD_TXN), [])
  {
  }

  /** The two `del` overloads address the same encoded key under the same
      guard and return the same code; they differ only in the data argument,
      null for `del(key)` and the encoded value for `del(key, value)`. */
  lemma DelPairNarrowsDel(d: Dbi, txn: Transaction.Txn, kt: TypeDesc, key: Value, vt: TypeDesc, value: Value,
                          rc: int)
    requires SerializableLike(kt) && SerializableLike(vt)
    ensures var all := Del(d, txn, kt, key, rc);
      var pair := DelPair(d, txn, kt, key, vt, value, rc);
      all.db == pair.db && all.status == pair.status && |all.calls| == |pair.calls| &&
      (Usable(d, txn) ==>
        all.calls[0].data == AnyData &&
        pair.calls == [all.calls[0].(data := ExactData(Encode(vt, value).val))])
  {
  }

  /** A moved-from handle is refused by every operation before the engine
      is reached, and, as it is no longer open, it can be opened again. */
  lemma MovedFromRefuses(src: Dbi, txn: Transaction.Txn, kt: TypeDesc, key: Value, vt: TypeDesc,
                         value: Value, out: Value, reply: GetReply, rc: int, name: StringView,
                         flags: seq<FlagWord>, id: u32)
    requires SerializableLike(kt) && SerializableLike(vt)
    ensures var s := Move(src).source;
      Erase(s, txn, rc) == Step(s, Status(MDB_BAD_DBI), []) &&
      Drop(s, txn, rc) == Step(s, Status(MDB_BAD_DBI), []) &&
      Stat(s, txn, rc) == Step(s, Status(MDB_BAD_TXN), []) &&
      Put(s, txn, kt, key, vt, value, flags, rc) == Step(s, Status(MDB_BAD_TXN), []) &&
      Get(s, txn, kt, key, vt, out, reply) == Got(Status(MDB_BAD_TXN), out, []) &&
      Del(s, txn, kt, key, rc) == Step(s, Status(MDB_BAD_TXN), []) &&
      DelPair(s, txn, kt, key, vt, value, rc) == Step(s, Status(MDB_BAD_TXN), [])
    ensures txn.hasTxn ==>
      var o := Open(Move(src).source, txn, name, flags, rc, id);
      o.status == FromCode(rc) && o.calls == [DbiOpen(NameArg(name), FoldFlags(flags))] &&
      (rc == MDB_SUCCESS ==> o.db == Dbi(id, true))
  {
  }

  /** Typed round trip through the engine: if `mdb_get` answers with the
      bytes a `put` handed to `mdb_put`, then `get` into an output of the
      same, decodable type succeeds and reproduces the stored value, and
      both calls address the same encoded key. */
  lemma {:induction false} PutThenGet(d: Dbi, txn: Transaction.Txn, kt: TypeDesc, key: Value, vt: TypeDesc,
                                      value: Value, flags: seq<FlagWord>, rc: int, out: Value)
    requires Usable(d, txn) && SerializableLike(kt) && SerializableLike(vt)
    requires Decodable(vt) && Fits(vt, value)
    ensures var p := Put(d, txn, kt, key, vt, value, flags, rc);
      var g := Get(d, txn, kt, key, vt, out, GetReply(MDB_SUCCESS, p.calls[0].val));
      g.status.Ok() && Meaning(vt, g.out) == Meaning(vt, value) &&
      g.calls[0].key == p.calls[0].key
  {
    var p := Put(d, txn, kt, key, vt, value, flags, rc);
    RoundTrip(vt, value, out);
    assert p.calls[0].val == Encode(vt, value).val;
  }
}
