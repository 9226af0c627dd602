# lmdbpp wrapper logic in Dafny

This project models the C++ wrapper `lmdbpp.h` around the LMDB embedded key-value
engine. It covers the wrapper's own logic. The engine is an opaque oracle.

- `errors.dfy` (`Errors`): `error_t`, a status wrapping an integer result code.
- `engine.dfy` (`Engine`): machine integer ranges, byte buffers, and flag words.
  It also holds the OR fold of variadic flag lists, and the `Call` datatype that
  records each `mdb_*` call the wrapper issues.
- `codec.dfy` (`Codec`): the `detail` namespace. It classifies a type as trivial,
  string, bytes or unknown, encodes a value into the bytes of an `MDB_val`, and
  decodes those bytes back.
- `environment.dfy` (`Environment`): `env_t`. It covers the setters that work only
  while closed, `open()` with `create()`/`init()`, `close()`, ephemeral file
  removal, the `check()`/`flush()` guards and the move operations.
- `transaction.dfy` (`Transaction`): the `txn_t` state machine. It covers
  `begin`/`commit`/`abort`/`reset`/`renew`, `pending()`, `cleanup()` and moves.
- `database.dfy` (`Database`): `dbi_t`. It covers the `opened_` flag and the
  guards of `open`/`erase`/`drop`/`stat`/`put`/`get`/`del`, with the record
  operations composed with the codec.

The engine is modelled the same way for every operation:

- Each operation is a pure function from the old object to the new object and
  its status.
- Each `mdb_*` call the operation may issue gets its result code as a parameter.
- Each operation returns the list of engine calls it actually issued.
- Contracts can therefore state which arguments reach the engine. For example,
  the flags given to `mdb_env_open` never carry `MDB_EPHEMERAL`.
- Native pointers are booleans: null or not null.
- The filesystem is the set of paths of existing regular files.
- The current directory is a parameter of `open()`.
- A C++ type is a descriptor. It holds its three traits, its `sizeof`, and which
  standard library type the decoder tests it against.
- A value is its object representation plus the contents of the buffer it
  designates.
- Flag words (`unsigned int`) are the sets of their one bits: `|` is union and
  `& ~f` is difference.

Where the header's own comments and its code disagree, the model follows the code:

- The comment at lmdbpp.h:774 says a transaction is aborted on destruction, but
  `txn_t` declares no destructor. Nothing aborts on destruction; only move
  assignment runs `cleanup()`.
- The comment at lmdbpp.h:1405 says `get()` returns `MDB_INVALID` when the value
  type does not match the data size. The decoder returns `EPERM` (lmdbpp.h:239).

A failed `commit()` keeps the transaction handle (lmdbpp.h:917), as the comment
at lmdbpp.h:912 says.

## Model

| member | source | states |
|---|---|---|
| Errors.FromCode | lmdbpp.h:76-94 | A status keeps its code verbatim and is a success exactly when the code is `MDB_SUCCESS` |
| Engine.FoldFlagsIsUnion | lmdbpp.h:354 | The variadic OR fold sets a bit exactly when some flag of the list sets it, so the word carries every flag and nothing else |
| Codec.KindOf | lmdbpp.h:171-205 | Classification is first-match in the order trivial, string, bytes: trivial exactly for trivially copyable types, string exactly for string-like types that are not, bytes exactly for byte-like types that are neither, and unknown exactly when the type fails the `SerializableLike` concept |
| Codec.SerializableLike | lmdbpp.h:186-187 | The concept holds when at least one of the three traits holds |
| Codec.Encode | lmdbpp.h:208-231 | A trivial value yields its `sizeof(T)` object bytes, and a string or byte container yields its `size()` buffer bytes. The `EINVAL` branch (lmdbpp.h:224-228) yields an empty value, but the template at lmdbpp.h:208 accepts only `SerializableLike` types, so that branch is dead code, like the view branches of the decoder |
| Codec.DecodeBranch | lmdbpp.h:238-262 | The decoder takes the copy branch exactly for trivially copyable types. Any other type takes the branch named after its standard type, or the unsupported branch when it is none of them |
| Codec.Decode | lmdbpp.h:234-263 | A trivial type decodes only a value of exactly `sizeof(T)` bytes, else `EPERM`. The buffer types `std::string` and `std::vector<std::byte>` always succeed and take all bytes. Other types get `EINVAL`. A failure leaves the output untouched, and a success makes the output's boundary bytes equal to the input |
| Codec.TrivialWinsOverStringLike | lmdbpp.h:192-215 | A type that is both trivially copyable and string-like (`std::string_view`) is classified trivial, so it encodes as `sizeof(T)` object bytes, not its characters |
| Codec.ViewBranchesUnreachable | lmdbpp.h:238-259 | With the real traits of the standard types, the `string_view` and `span` branches of the decoder are never taken; those types go through the trivial branch |
| Codec.DecodableTypes | lmdbpp.h:238-262 | Among standard types, exactly the trivially copyable ones, `std::string` and `std::vector<std::byte>` decode |
| Codec.RoundTrip | lmdbpp.h:209-262 | For every type that encodes and decodes, decoding the encoding succeeds and reproduces the value's boundary bytes, for any prior output and for empty buffers |
| Codec.TrivialRoundTrip | lmdbpp.h:212-241 | For a trivially copyable type the decoded object representation is the original one |
| Codec.BufferRoundTrip | lmdbpp.h:216-254 | For `std::string` and `std::vector<std::byte>` the decoded buffer is the original buffer, whatever the output held, empty included |
| Codec.EncodableButNotDecodable | lmdbpp.h:216-262 | A non-trivial string-like type other than `std::string` encodes but is refused with `EINVAL` on decode, output untouched |
| Environment.Cleanup | lmdbpp.h:742-750 | Releasing closes the handle once, if one is held, and leaves no handle; configuration is untouched |
| Environment.Create | lmdbpp.h:731-740 | A handle is held afterwards exactly when `mdb_env_create` succeeded; any previous handle is closed first |
| Environment.Construct | lmdbpp.h:351-357 | The variadic constructor stores the OR of its flags only when the handle was created, and starts closed with the documented defaults |
| Environment.SetMaxDbs | lmdbpp.h:513-518 | While open: `MDB_INVALID`, value unchanged, error recorded. While closed: value stored, success. No other field changes |
| Environment.SetMaxReaders | lmdbpp.h:529-534 | As `maxdbs`, except that a refusal does not record the error |
| Environment.SetMapSize | lmdbpp.h:546-551 | While open: `MDB_INVALID`, value unchanged. While closed: value stored. No other field changes |
| Environment.SetMode | lmdbpp.h:570-575 | While open: `MDB_INVALID`, mode unchanged. While closed: mode stored. No other field changes |
| Environment.SetPath | lmdbpp.h:597-602 | While open: `MDB_INVALID`, path unchanged. While closed: path stored. Nothing else changes, last error included |
| Environment.SetFlags | lmdbpp.h:613-620 | While open: `MDB_INVALID`, flags unchanged. While closed: the flag word becomes exactly the union of the arguments. Nothing else changes |
| Environment.ConfigureFrozenWhileOpen | lmdbpp.h:509-620 | Every setter called on an open environment fails with `MDB_INVALID` and leaves the whole configuration, handle and open flag as they were |
| Environment.ConfigureWhileClosed | lmdbpp.h:509-620 | Every setter called on a closed environment succeeds and changes exactly its own option |
| Environment.ConfigureCommutes | lmdbpp.h:442-446 | Setters of different options may be called in any order before `open()` with the same resulting configuration |
| Environment.Join | lmdbpp.h:469 | `path / name` is the directory, then one separator (not doubled when the directory already ends in one), then the name; with an empty directory it is just the name |
| Environment.ResolvePath | lmdbpp.h:464-472 | A set path is kept. An empty path becomes the current directory; with `MDB_NOSUBDIR` it becomes `current_path() / "lmdb.mdb"`: that directory, exactly one separator and `lmdb.mdb` |
| Environment.OpenCall | lmdbpp.h:762-763 | The flags handed to `mdb_env_open` are the configured flags with only the `MDB_EPHEMERAL` bit removed |
| Environment.Acquire | lmdbpp.h:476-479 | With a handle held nothing happens; otherwise `create()` is issued and its code returned, and a handle is held exactly when it succeeded |
| Environment.InitOrRecycle | lmdbpp.h:481-487 | `init()`'s code is returned. When it fails, the handle is closed and a new one created, so the calls end in `mdb_env_close`, `mdb_env_create`, and a handle is held afterwards exactly when that second create succeeded. A success marks the environment open |
| Environment.Attach | lmdbpp.h:474-489 | After the path is resolved: a failed `create()` returns its code after the single create call, with no handle. Otherwise the result is `init()`'s code, with the create, init and recycle calls in that order. The engine never sees `MDB_EPHEMERAL`, and a successful open ends with `mdb_env_open` on the resolved path |
| Environment.Init | lmdbpp.h:752-766 | An open environment is refused with `MDB_INVALID` and no engine call. Otherwise the calls are issued in order (maxdbs, maxreaders, mapsize, open), the first failing one ends the sequence and its code is returned, and the environment is marked open exactly when all four succeed |
| Environment.Open | lmdbpp.h:457-458 | An environment that is already open is refused with `MDB_INVALID`, as documented, and is left open with no engine call. A closed one behaves exactly as the code as written. The configuration is kept, except that an empty path becomes the resolved default path, even when the open then fails. The last error is the returned status |
| Environment.OpenAsWritten | lmdbpp.h:459-490 | On a closed environment: an unresolvable default path gives `MDB_INVALID` with no engine call. A failed `create()` returns its code. Otherwise `init()`'s first failing code is returned, and after a failure the handle is closed and re-created: the calls end in close, create, and a handle is held exactly when that create succeeded. It opens exactly when every step succeeds, never passes `MDB_EPHEMERAL`, and keeps the configuration, except that an empty path becomes the resolved default path before any engine call and stays so even when the open fails |
| Environment.OpenRetry | lmdbpp.h:457-490 | After a failed `open()` the environment is closed but still usable: a retry whose engine calls succeed opens it |
| Environment.OpenDefaultPath | lmdbpp.h:454-471 | Opening with no path set opens in the current directory, as `lmdb.mdb` in single-file mode |
| Environment.OpenAsWrittenClosesOpenEnv | lmdbpp.h:481-487 | In the code as written, `open()` on an open environment returns `MDB_INVALID` but closes the live handle |
| Environment.BackingFiles | lmdbpp.h:677-684 | In single-file mode the only backing file is the path itself. Otherwise there are exactly two files, `path / "data.mdb"` and `path / "lock.mdb"`, each directly inside the directory |
| Environment.Exist | lmdbpp.h:672-698 | The files exist when the path is not empty and every backing file is present |
| Environment.Remove | lmdbpp.h:700-728 | Backing files are removed exactly when the environment is closed, its path is set and they all exist, and afterwards none remain |
| Environment.Close | lmdbpp.h:492-500 | After `close()` no handle is held and the environment is not open. Ephemeral backing files are removed, and other files and the configuration are untouched |
| Environment.CloseWithoutPathKeepsFiles | lmdbpp.h:672-698 | With no path, `exist()` fails, so neither `close()` nor `remove()` deletes anything, even for an ephemeral environment |
| Environment.CloseIdempotent | lmdbpp.h:492-500 | A second `close()` issues no engine call and changes neither the object nor the files |
| Environment.EphemeralRemovalAfterRelease | lmdbpp.h:493-500 | Ephemeral deletion happens on the released object; `remove()` on an open environment does nothing |
| Environment.Check | lmdbpp.h:629-635 | `check()` returns -1 without an engine call unless open; otherwise the engine's count, or -1 on failure |
| Environment.Flush | lmdbpp.h:644-648 | `flush()` returns `EINVAL` without an engine call unless open; otherwise the sync call's code |
| Environment.MoveConstruct | lmdbpp.h:404-418 | The new object takes every field. The moved-from one has no handle, is not open, has a success last error and an empty path, and keeps the other settings |
| Environment.MoveAssign | lmdbpp.h:420-440 | The target's own handle is closed first (no file removal), then it takes the source's fields; the source is left as after a move |
| Environment.MovedFromIsInert | lmdbpp.h:404-418 | Closing a moved-from environment, as its destructor does, issues no engine call and deletes no file, even when it is ephemeral. Opening it starts by creating a new handle |
| Environment.GuardsFollowLifecycle | lmdbpp.h:629-648 | After `close()`, and on a moved-from object, `check()` gives -1 and `flush()` gives `EINVAL`, both without an engine call. After an `open()` that succeeded, both reach the engine |
| Transaction.PendingIsHandleHeld | lmdbpp.h:1013-1016 | On reachable states `pending()` is exactly "a transaction handle is held" |
| Transaction.Pending | lmdbpp.h:1013-1016 | `pending()` holds when a handle is held and the object is not marked committed |
| Transaction.New | lmdbpp.h:859-865 | A new transaction copies the environment's handle, holds no transaction, and is not pending |
| Transaction.BeginFlags | lmdbpp.h:890 | The flag word is `MDB_RDONLY` exactly for a read-only transaction, and it never carries any other flag |
| Transaction.BeginFlagsReadOnly | lmdbpp.h:890 | Read as a flag test, the word has `MDB_RDONLY` set exactly for a read-only transaction |
| Transaction.Begin | lmdbpp.h:882-897 | A null environment gives `MDB_INVALID` and a held handle gives `MDB_BAD_TXN`, both without an engine call. Otherwise the engine's code is returned; success makes it pending with the same type, and failure changes nothing |
| Transaction.Commit | lmdbpp.h:914-921 | No handle gives `MDB_BAD_TXN`. Otherwise the engine's code is returned, and the handle is released only on success |
| Transaction.Abort | lmdbpp.h:937-944 | No handle gives `MDB_BAD_TXN`. Otherwise the abort is issued, and afterwards no handle is held |
| Transaction.Reset | lmdbpp.h:961-968 | No handle gives `MDB_INVALID` and read-write gives `MDB_BAD_TXN`, both leaving it unchanged. Otherwise it succeeds and stays pending |
| Transaction.RenewAsWritten | lmdbpp.h:986-993 | As written, `renew()` reports success on a read-only transaction whatever the engine answered, and leaves it pending. The handle, the environment and the type never change |
| Transaction.Renew | lmdbpp.h:986-993 | Corrected: same guards as `reset()`; otherwise it returns the engine's code, is pending after a success, and after an engine refusal the object is exactly as before |
| Transaction.RenewAsWrittenHidesEngineError | lmdbpp.h:986-993 | An engine refusal of `mdb_txn_renew` is reported as success by the code as written and passed back by the corrected one |
| Transaction.Cleanup | lmdbpp.h:1028-1036 | An abort is issued exactly when the transaction is pending, and afterwards no handle is held |
| Transaction.MoveConstruct | lmdbpp.h:817-826 | The new object takes all fields; the source keeps only its type, with no environment or transaction handle |
| Transaction.MoveAssign | lmdbpp.h:828-843 | The target's pending transaction is aborted before it takes the source's fields; the source is left as after a move |
| Transaction.MovedFromCannotBegin | lmdbpp.h:817-826 | A moved-from transaction's `begin()` fails with `MDB_INVALID` |
| Transaction.BeginAfterEnd | lmdbpp.h:882-944 | After `abort()`, or a successful `commit()`, `begin()` passes its guards again; after a failed commit it is still refused with `MDB_BAD_TXN` |
| Transaction.ResetRenewCycle | lmdbpp.h:961-993 | `reset()` on read-write fails and the transaction stays pending; on read-only, `reset()` then a successful `renew()` leave it pending |
| Transaction.ApplyPreservesValid | lmdbpp.h:882-1036 | Every operation keeps "handle held exactly when not committed", the type and the environment. This holds for `renew()` as written and for the corrected renew |
| Transaction.RunPreservesValid | lmdbpp.h:806-1036 | Along any sequence of operations, which may mix `renew()` as written with the corrected renew, the object stays reachable, so it never holds a handle `pending()` does not report |
| Database.NameArg | lmdbpp.h:1126-1127 | Corrected: an empty view selects the unnamed database. Any other view passes its own characters, up to an embedded NUL if it has one, and never reads past its end |
| Database.CString | lmdbpp.h:1126-1127 | A `const char*` read as a C string gives the characters before the first NUL: a prefix of the array with no NUL, followed by a NUL unless the array ends |
| Database.CStringBeforeNul | lmdbpp.h:1126-1127 | When the first NUL of the array is at `k`, the C string is the first `k` characters |
| Database.NameArgAsWritten | lmdbpp.h:1126-1127 | As written: an empty view gives null. Any other view gives the C string starting at its first character, which runs to the first NUL of the underlying array, not to the end of the view |
| Database.NameArgAsWrittenReadsPastView | lmdbpp.h:1126-1127 | `std::string_view("storeXYZ").substr(0, 5)` opens `storeXYZ` as written, where the corrected name is `store` |
| Database.NameArgAsWrittenOnWholeString | lmdbpp.h:1126-1127 | For a view of a whole `std::string` with no embedded NUL, the code as written and the corrected one both pass the name unchanged |
| Database.Open | lmdbpp.h:1119-1130 | Corrected: an open handle gets `MDB_BAD_DBI` and a null transaction gets `MDB_BAD_TXN`, both without an engine call. Otherwise the engine receives the corrected name (the view's own characters) and its code is returned, and the handle is open exactly on success, with the engine's identifier |
| Database.OpenAsWritten | lmdbpp.h:1119-1130 | As written: the same guards, result and handle as the corrected `open`, but the engine receives `name.data()` read as a C string |
| Database.OpenDiffersOnlyInName | lmdbpp.h:1126-1127 | The corrected and the as-written `open` leave the same handle and return the same code; they differ only in the name argument of the engine call |
| Database.OpenAsWrittenReadsPastView | lmdbpp.h:1126-1127 | As written, `open` on `std::string_view("storeXYZ").substr(0, 5)` asks the engine for `storeXYZ`; the corrected one asks for `store` |
| Database.OpenAsWrittenOnWholeString | lmdbpp.h:1126-1127 | On a view of a whole NUL-terminated string without embedded NUL, the as-written and the corrected `open` coincide |
| Database.Erase | lmdbpp.h:1150-1154 | Unusable gives `MDB_BAD_DBI`. Otherwise it issues `mdb_drop(dbi, 0)` and returns its code, and the handle never changes |
| Database.Drop | lmdbpp.h:1176-1182 | Unusable gives `MDB_BAD_DBI`. Otherwise it issues `mdb_drop(dbi, 1)` and returns its code, and the handle is closed only when the engine succeeded |
| Database.Stat | lmdbpp.h:1342-1346 | Unusable gives `MDB_BAD_TXN` without an engine call; otherwise the engine's code |
| Database.Put | lmdbpp.h:1373-1384 | Unusable gives `MDB_BAD_TXN` with no engine call. Otherwise one put with the encoded key, the encoded value and the OR of the flags returns its code. Key and value types must satisfy `SerializableLike`, as the template requires, so the encoding checks at lmdbpp.h:1380-1381 never fail |
| Database.Get | lmdbpp.h:1406-1419 | Unusable gives `MDB_BAD_TXN`. An engine failure, not-found included, is returned unchanged before any decoding, with the output untouched. Otherwise the result is the decoder's. Both types must satisfy `SerializableLike`, as the template requires |
| Database.Del | lmdbpp.h:1438-1447 | Unusable gives `MDB_BAD_TXN`. Otherwise it issues one `mdb_del(dbi, key, NULL)` with the encoded key and returns its code. The key type must satisfy `SerializableLike`, as the template requires |
| Database.DelPair | lmdbpp.h:1469-1479 | As `del(key)`, but the `mdb_del` call carries the encoded value as its data argument. Both types must satisfy `SerializableLike`, as the template requires |
| Database.Move | lmdbpp.h:1069-1085 | The target takes the handle; the source is no longer open |
| Database.NoReopen | lmdbpp.h:1119-1182 | An opened handle refuses a second `open()` without an engine call. `erase()` keeps it open, and after a successful `drop()` it can be opened again |
| Database.EndedTransactionRefused | lmdbpp.h:1342-1479 | After `abort()`, `stat`, `put`, `get` and both `del` overloads return `MDB_BAD_TXN`, issue no engine call and leave the handle as it was |
| Database.DelPairNarrowsDel | lmdbpp.h:1438-1479 | The two `del` overloads share the guard, the result code and the encoded key. They differ only in the data argument: null for `del(key)` and the encoded value for `del(key, value)` |
| Database.MovedFromRefuses | lmdbpp.h:1069-1085 | A moved-from handle is refused by `erase`, `drop` (`MDB_BAD_DBI`), `stat`, `put`, `get` and both `del` overloads (`MDB_BAD_TXN`), with no engine call. It can be opened again, and a successful open takes the engine's identifier |
| Database.PutThenGet | lmdbpp.h:1373-1419 | If the engine returns the bytes `put` stored, `get` into the same decodable type succeeds and reproduces the stored value, under the same encoded key |

## Left out

- The LMDB engine: B+tree, MVCC snapshots, memory mapping and locking. Every `mdb_*` call is an opaque result code given as a parameter, so put/get/delete have no store behind them.
- Concurrency: the one-writer rule, blocking `begin()` and reader slots belong to the engine.
- `error_t::message()` and `lmdb_error`: foreign message table and exceptions.
- `exist()` filesystem probing: only a set of existing regular files is modelled; directory existence is implied by the files in it.
- The `env_t(path, flags)` constructor (lmdbpp.h:393-402): line 396 does not compile.
- `maxkeysize`, `path()` getter while open, `mmap_increase` (a stub that returns success), `set_key_compare`, `set_value_compare`: pass-through calls with no wrapper logic.
- `compare_keys` and `compare_values` (lmdbpp.h:1208-1255): they call a `to_mdb_val` overload that does not exist.
- Cursors and the pair type: the header has no cursor class; lmdbpp-test.cpp tests an older API that is not part of this model.
- Self move assignment (`this == &other`): pointer identity is not modelled; the move functions describe distinct objects.
- Codec.Decode: for a trivially copied view type only the copied object bytes are modelled; the memory the copied pointer designates is not. The output's `content` is then a placeholder that keeps its old value; it is not what the decoded view shows.
- Database.Stat: the `MDB_stat` record the engine fills in is not modelled.
- Environment.Remove: `std::filesystem::remove` is assumed to succeed on an existing file. Permission failures and races are not modelled. Any lock file LMDB keeps beside a single file is not modelled either.
- Environment.MoveConstruct: the C++ standard leaves a moved-from `std::filesystem::path` unspecified. The model leaves it empty, as libstdc++, libc++ and the Microsoft library do.
- Transaction.Renew: it passes the engine's code back, which the code as written does not do. The code as written is Transaction.RenewAsWritten; the Findings section gives the input where they differ.
- Database.Open: the engine receives the corrected name, the view's own characters. The code as written, which reads `name.data()` as a C string, is Database.OpenAsWritten; the Findings section gives the input where they differ.
- Database.NameArgAsWritten: memory past the end of the character array behind a view is not modelled. A read that finds no NUL stops at the end of the array.
- Database.Put, Database.Get, Database.Del, Database.DelPair: they require `SerializableLike` types, as their templates do. The encoding-failure returns at lmdbpp.h:1380-1381, 1412, 1444 and 1475-1476 cannot be reached, so the model omits them.
- Environment.Join: paths use the POSIX separator.
- Integer widths: setters take arguments already in range (`u32`, `u64`), as the C++ parameter types guarantee, so no truncation arises.

## Findings

| source | as written | input that shows it | evidently intended | confidence | as-written member | corrected member |
|---|---|---|---|---|---|---|
| lmdbpp.h:481-487 | `open()` on an open environment: `init()` returns `MDB_INVALID`, then the failure branch runs `cleanup()`, closing the live handle | an open environment with a non-empty path | return `MDB_INVALID` and leave the environment open, as the comment at lmdbpp.h:457-458 says | high; not executed | Environment.OpenAsWrittenClosesOpenEnv | Environment.Open |
| lmdbpp.h:1126 | `name.data()` of a `std::string_view` is passed as a C string, so the engine reads to the first NUL in memory, not to the end of the view | `std::string_view("storeXYZ").substr(0, 5)`, which opens `storeXYZ` | pass exactly the view's characters, e.g. through a terminated `std::string` copy | medium; not executed | Database.OpenAsWrittenReadsPastView | Database.Open |
| lmdbpp.h:990 | the result of `mdb_txn_renew` is discarded and success is returned | a read-only transaction holding a handle, engine answers `MDB_BAD_RSLOT` | return the engine's code, as `begin()` and `commit()` do | medium; not executed | Transaction.RenewAsWritten | Transaction.Renew |
