/**
  The environment wrapper (`env_t`): configuration while closed, `open()`
  through the private `create()` and `init()`, `close()` with deletion of
  ephemeral files, `remove()`, the `check()` and `flush()` guards, and the
  move operations. The engine handle is a flag (`hasHandle`); the filesystem
  is the set of paths of existing regular files; the current directory is a
  parameter of `open()`.
 */
module Environment {
  import opened Errors
  import opened Engine

  const DEFAULT_MODE: u32 := 420                          // 0644, -rw-r--r--
  const DEFAULT_MAXDBS: u32 := 128
  const DEFAULT_MAXREADERS: u32 := 512
  const DEFAULT_MMAPSIZE: u64 := 2 * 1024 * 1024 * 1024   // 2 GiB
  const DEFAULT_NAME: Path := "lmdb.mdb"
  const DATA_FILE: Path := "data.mdb"
  const LOCK_FILE: Path := "lock.mdb"

  datatype Env = Env(
    hasHandle: bool,     // envptr_ != nullptr
    isOpen: bool,        // isopen_
    maxDbs: u32,
    maxReaders: u32,
    mapSize: u64,
    mode: u32,
    flags: FlagWord,
    path: Path,
    lastError: Status)

  /** The configuration the setters change and `open()` hands to the engine. */
  datatype Config = Config(maxDbs: u32, maxReaders: u32, mapSize: u64, mode: u32, flags: FlagWord, path: Path)

  function ConfigOf(e: Env): Config {
    Config(e.maxDbs, e.maxReaders, e.mapSize, e.mode, e.flags, e.path)
  }

  /** Every reachable environment is open only while it holds a handle. */
  predicate Valid(e: Env) {
    e.isOpen ==> e.hasHandle
  }

  /** An environment object before its constructor body runs: the member
      initialisers. */
  const Initial: Env :=
    Env(false, false, DEFAULT_MAXDBS, DEFAULT_MAXREADERS, DEFAULT_MMAPSIZE, DEFAULT_MODE, {}, [], Success)

  /** The outcome of one operation: the new object, the status returned and
      the engine calls issued, in order. */
  datatype Step = Step(env: Env, status: Status, calls: seq<Call>)

  // ---------------------------------------------------------------------------
  // Private helpers: cleanup(), create()

  /** `cleanup()`: closes the handle, if any, and clears `isopen_` with it. */
  function Cleanup(e: Env): (r: Step)
    ensures !r.env.hasHandle
    ensures r.env.isOpen == (e.isOpen && !e.hasHandle)
    ensures r.calls == (if e.hasHandle then [EnvClose] else [])
    ensures ConfigOf(r.env) == ConfigOf(e) && r.env.lastError == e.lastError
  {
    if e.hasHandle then Step(e.(isOpen := false, hasHandle := false), Success, [EnvClose])
    else Step(e, Success, [])
  }

  /** `create()`: releases any handle, then asks the engine for a new one;
      `rc` is the result of `mdb_env_create`. */
  function Create(e: Env, rc: int): (r: Step)
    ensures r.status == FromCode(rc)
    ensures r.env.hasHandle <==> rc == MDB_SUCCESS
    ensures r.env.isOpen == (e.isOpen && !e.hasHandle)
    ensures r.calls == Cleanup(e).calls + [EnvCreate]
    ensures ConfigOf(r.env) == ConfigOf(e) && r.env.lastError == e.lastError
  {
    var c := Cleanup(e);
    Step(c.env.(hasHandle := rc == MDB_SUCCESS), Status(rc), c.calls + [EnvCreate])
  }

  /** The variadic constructor `env_t(Flags... flags)`: creates the handle
      and, only when that succeeds, stores the OR of the flags. */
  function Construct(flags: seq<FlagWord>, rc: int): (r: Step)
    ensures r.calls == [EnvCreate]
    ensures r.env.hasHandle <==> rc == MDB_SUCCESS
    ensures !r.env.isOpen && Valid(r.env)
    ensures r.env.lastError == r.status == FromCode(rc)
    ensures r.env.flags == (if rc == MDB_SUCCESS then FoldFlags(flags) else {})
    ensures r.env.path == [] && r.env.maxDbs == DEFAULT_MAXDBS && r.env.maxReaders == DEFAULT_MAXREADERS
    ensures r.env.mapSize == DEFAULT_MMAPSIZE && r.env.mode == DEFAULT_MODE
  {
    var c := Create(Initial, rc);
    var e := c.env.(lastError := c.status);
    Step(if c.status.Ok() then e.(flags := FoldFlags(flags)) else e, c.status, c.calls)
  }

  // ---------------------------------------------------------------------------
  // Configuration setters: each refuses with MDB_INVALID while open.

  function SetMaxDbs(e: Env, dbs: u32): (r: Step)
    ensures r.calls == []
    ensures r.status.code == (if e.isOpen then MDB_INVALID else MDB_SUCCESS)
    ensures r.env.maxDbs == (if e.isOpen then e.maxDbs else dbs)
    ensures r.env.lastError == r.status
    ensures r.env.(maxDbs := e.maxDbs, lastError := e.lastError) == e
  {
    if e.isOpen then Step(e.(lastError := Status(MDB_INVALID)), Status(MDB_INVALID), [])
    else Step(e.(maxDbs := dbs, lastError := Success), Success, [])
  }

  /** Unlike `maxdbs`, the refusal does not record MDB_INVALID as the last
      error. */
  function SetMaxReaders(e: Env, readers: u32): (r: Step)
    ensures r.calls == []
    ensures r.status.code == (if e.isOpen then MDB_INVALID else MDB_SUCCESS)
    ensures r.env.maxReaders == (if e.isOpen then e.maxReaders else readers)
    ensures r.env.lastError == (if e.isOpen then e.lastError else Success)
    ensures r.env.(maxReaders := e.maxReaders, lastError := e.lastError) == e
  {
    if e.isOpen then Step(e, Status(MDB_INVALID), [])
    else Step(e.(maxReaders := readers, lastError := Success), Success, [])
  }

  function SetMapSize(e: Env, size: u64): (r: Step)
    ensures r.calls == []
    ensures r.status.code == (if e.isOpen then MDB_INVALID else MDB_SUCCESS)
    ensures r.env.mapSize == (if e.isOpen then e.mapSize else size)
    ensures r.env.lastError == r.status
    ensures r.env.(mapSize := e.mapSize, lastError := e.lastError) == e
  {
    if e.isOpen then Step(e.(lastError := Status(MDB_INVALID)), Status(MDB_INVALID), [])
    else Step(e.(mapSize := size, lastError := Success), Success, [])
  }

  function SetMode(e: Env, mode: u32): (r: Step)
    ensures r.calls == []
    ensures r.status.code == (if e.isOpen then MDB_INVALID else MDB_SUCCESS)
    ensures r.env.mode == (if e.isOpen then e.mode else mode)
    ensures r.env.lastError == r.status
    ensures r.env.(mode := e.mode, lastError := e.lastError) == e
  {
    if e.isOpen then Step(e.(lastError := Status(MDB_INVALID)), Status(MDB_INVALID), [])
    else Step(e.(mode := mode, lastError := Success), Success, [])
  }

  /** `path(p)` never touches the last error. */
  function SetPath(e: Env, p: Path): (r: Step)
    ensures r.calls == []
    ensures r.status.code == (if e.isOpen then MDB_INVALID else MDB_SUCCESS)
    ensures r.env.path == (if e.isOpen then e.path else p)
    ensures r.env.(path := e.path) == e
  {
    if e.isOpen then Step(e, Status(MDB_INVALID), [])
    else Step(e.(path := p), Success, [])
  }

  /** `setflags(flags...)` replaces the flag word by the OR of its arguments
      and never touches the last error. */
  function SetFlags(e: Env, flags: seq<FlagWord>): (r: Step)
    ensures r.calls == []
    ensures r.status.code == (if e.isOpen then MDB_INVALID else MDB_SUCCESS)
    ensures !e.isOpen ==> forall i :: 0 <= i < |flags| ==> flags[i] <= r.env.flags
    ensures !e.isOpen ==> forall b :: b in r.env.flags ==> exists i :: 0 <= i < |flags| && b in flags[i]
    ensures e.isOpen ==> r.env.flags == e.flags
    ensures r.env.(flags := e.flags) == e
  {
    if e.isOpen then Step(e, Status(MDB_INVALID), [])
    else
      var f := FoldFlags(flags);
      forall i | 0 <= i < |flags| ensures flags[i] <= f {
        forall b | b in flags[i] ensures b in f {
          FoldFlagsIsUnion(flags, b);
        }
      }
      forall b | b in f ensures exists i :: 0 <= i < |flags| && b in flags[i] {
        FoldFlagsIsUnion(flags, b);
      }
      Step(e.(flags := f), Success, [])
  }

  /** One call of a configuration setter, with its argument. */
  datatype Setting =
    | MaxDbs(dbs: u32)
    | MaxReaders(readers: u32)
    | MapSize(size: u64)
    | Mode(mode: u32)
    | PathSetting(path: Path)
    | Flags(flags: seq<FlagWord>)

  /** Which setter a `Setting` calls, ignoring its argument. */
  function Option(s: Setting): nat {
    match s
    case MaxDbs(_) => 0
    case MaxReaders(_) => 1
    case MapSize(_) => 2
    case Mode(_) => 3
    case PathSetting(_) => 4
    case Flags(_) => 5
  }

  function Configure(e: Env, s: Setting): Step {
    match s
    case MaxDbs(n) => SetMaxDbs(e, n)
    case MaxReaders(n) => SetMaxReaders(e, n)
    case MapSize(n) => SetMapSize(e, n)
    case Mode(m) => SetMode(e, m)
    case PathSetting(p) => SetPath(e, p)
    case Flags(fs) => SetFlags(e, fs)
  }

  /** The configuration a setting stores when the environment is closed. */
  function Updated(c: Config, s: Setting): Config {
    match s
    case MaxDbs(n) => c.(maxDbs := n)
    case MaxReaders(n) => c.(maxReaders := n)
    case MapSize(n) => c.(mapSize := n)
    case Mode(m) => c.(mode := m)
    case PathSetting(p) => c.(path := p)
    case Flags(fs) => c.(flags := FoldFlags(fs))
  }

  /** Every setter, once the environment is open, returns MDB_INVALID and
      leaves the whole configuration, the handle and the open flag as they
      were. */
  lemma ConfigureFrozenWhileOpen(e: Env, s: Setting)
    requires e.isOpen
    ensures Configure(e, s).status.code == MDB_INVALID
    ensures ConfigOf(Configure(e, s).env) == ConfigOf(e)
    ensures Configure(e, s).env.isOpen && Configure(e, s).env.hasHandle == e.hasHandle
    ensures Configure(e, s).calls == []
  {
  }

  /** Every setter, while the environment is closed, succeeds, stores exactly
      its own value and changes no other field but the last error. */
  lemma ConfigureWhileClosed(e: Env, s: Setting)
    requires !e.isOpen
    ensures Configure(e, s).status.Ok()
    ensures ConfigOf(Configure(e, s).env) == Updated(ConfigOf(e), s)
    ensures !Configure(e, s).env.isOpen && Configure(e, s).env.hasHandle == e.hasHandle
  {
  }

  /** Setters of different options may be called in either order before
      `open()`: the resulting configuration is the same. */
  lemma ConfigureCommutes(e: Env, s1: Setting, s2: Setting)
    requires !e.isOpen
    requires Option(s1) != Option(s2)
    ensures ConfigOf(Configure(Configure(e, s1).env, s2).env) == ConfigOf(Configure(Configure(e, s2).env, s1).env)
  {
    ConfigureWhileClosed(e, s1);
    ConfigureWhileClosed(e, s2);
    ConfigureWhileClosed(Configure(e, s1).env, s2);
    ConfigureWhileClosed(Configure(e, s2).env, s1);
  }

  // ---------------------------------------------------------------------------
  // open(): default path, create(), init(), recycling on failure

  /** `path / name` for a relative file name (POSIX separator): the
      directory, one separator, then the name; an empty directory adds
      nothing and a trailing separator is not doubled. */
  function Join(dir: Path, name: Path): (p: Path)
    requires |name| > 0
    ensures |p| >= |dir| + |name| && p[|p| - |name|..] == name
    ensures dir == [] ==> p == name
    ensures dir != [] ==> (p == dir + name || p == dir + "/" + name) && p[|p| - |name| - 1] == '/'
    ensures dir != [] && dir[|dir| - 1] == '/' ==> p == dir + name
  {
    if dir == [] then name
    else if dir[|dir| - 1] == '/' then dir + name
    else dir + "/" + name
  }

  /** `f` names the file `name` inside the directory `dir`. */
  predicate InDir(f: Path, dir: Path, name: Path) {
    |f| >= |dir| + |name| && f[..|dir|] == dir && f[|f| - |name|..] == name
  }

  /** `Join` adds at most one separator, and one always stands between a
      non-empty directory and the name. */
  lemma JoinSeparated(dir: Path, name: Path)
    requires |name| > 0
    ensures var p := Join(dir, name);
      InDir(p, dir, name) && (p == dir + name || p == dir + "/" + name) &&
      (dir != [] ==> p[|p| - |name| - 1] == '/')
  {
  }

  /** The result of `std::filesystem::current_path()`. */
  datatype CurrentDir = Cwd(path: Path) | CwdError

  /** The path `open()` resolves for an environment with path `path` and
      flags `flags`: an empty path becomes the current directory, with the
      default file name appended exactly for a single-file environment. */
  function ResolvePath(path: Path, flags: FlagWord, cwd: CurrentDir): (r: Path)
    requires path != [] || cwd.Cwd?
    ensures path != [] ==> r == path
    ensures path == [] && !HasFlag(flags, MDB_NOSUBDIR) ==> r == cwd.path
    ensures path == [] && HasFlag(flags, MDB_NOSUBDIR) ==>
              InDir(r, cwd.path, DEFAULT_NAME) &&
              (r == cwd.path + DEFAULT_NAME || r == cwd.path + "/" + DEFAULT_NAME)
    ensures path == [] && HasFlag(flags, MDB_NOSUBDIR) ==> r == Join(cwd.path, DEFAULT_NAME)
    ensures path == [] && HasFlag(flags, MDB_NOSUBDIR) && cwd.path != [] ==>
              r[|r| - |DEFAULT_NAME| - 1] == '/'
  {
    if path != [] then path
    else if HasFlag(flags, MDB_NOSUBDIR) then
      JoinSeparated(cwd.path, DEFAULT_NAME);
      Join(cwd.path, DEFAULT_NAME)
    else cwd.path
  }

  /** The result codes of the engine calls `open()` may issue, in order. */
  datatype OpenReplies = OpenReplies(
    create: int,         // mdb_env_create, when no handle is held
    setMaxDbs: int,      // mdb_env_set_maxdbs
    setMaxReaders: int,  // mdb_env_set_maxreaders
    setMapSize: int,     // mdb_env_set_mapsize
    envOpen: int,        // mdb_env_open
    recreate: int)       // mdb_env_create, after a failed init

  /** The engine-open call `init()` issues: the configured path and mode and
      the flag word without the wrapper's MDB_EPHEMERAL bit. */
  function OpenCall(e: Env, path: Path, flags: FlagWord): (c: Call)
    ensures c.EnvOpen? && MDB_EPHEMERAL !! c.flags
    ensures c.flags + (flags * MDB_EPHEMERAL) == flags
  {
    EnvOpen(path, flags - MDB_EPHEMERAL, e.mode)
  }

  /** The wrapper-only MDB_EPHEMERAL bit is absent from every engine-open
      call of a trace. */
  predicate HidesEphemeral(calls: seq<Call>) {
    forall c | c in calls && c.EnvOpen? :: MDB_EPHEMERAL !! c.flags
  }

  /** The four engine calls of `init()`, in the order it issues them. */
  function InitCalls(e: Env, path: Path, flags: FlagWord): seq<Call> {
    [EnvSetMaxDbs(e.maxDbs), EnvSetMaxReaders(e.maxReaders), EnvSetMapSize(e.mapSize), OpenCall(e, path, flags)]
  }

  /** `init(path, flags)`: refuses an open environment, then configures and
      opens the engine handle, stopping at the first failing call and
      returning its code. The environment is marked open only when all four
      calls succeed. */
  function Init(e: Env, path: Path, flags: FlagWord, r: OpenReplies): (s: Step)
    ensures e.isOpen ==> s == Step(e, Status(MDB_INVALID), [])
    ensures !e.isOpen && r.setMaxDbs != 0 ==>
      s.status.code == r.setMaxDbs && s.calls == InitCalls(e, path, flags)[..1]
    ensures !e.isOpen && r.setMaxDbs == 0 && r.setMaxReaders != 0 ==>
      s.status.code == r.setMaxReaders && s.calls == InitCalls(e, path, flags)[..2]
    ensures !e.isOpen && r.setMaxDbs == 0 && r.setMaxReaders == 0 && r.setMapSize != 0 ==>
      s.status.code == r.setMapSize && s.calls == InitCalls(e, path, flags)[..3]
    ensures !e.isOpen && r.setMaxDbs == 0 && r.setMaxReaders == 0 && r.setMapSize == 0 ==>
      s.status == FromCode(r.envOpen) && s.calls == InitCalls(e, path, flags)
    ensures !e.isOpen ==>
      (s.status.Ok() <==> r.setMaxDbs == 0 && r.setMaxReaders == 0 && r.setMapSize == 0 && r.envOpen == 0)
    ensures s.env == e.(isOpen := e.isOpen || s.status.Ok())
    ensures HidesEphemeral(s.calls)
  {
    if e.isOpen then Step(e, Status(MDB_INVALID), [])
    else
      var c1 := [EnvSetMaxDbs(e.maxDbs)];
      var c2 := c1 + [EnvSetMaxReaders(e.maxReaders)];
      var c3 := c2 + [EnvSetMapSize(e.mapSize)];
      var c4 := c3 + [OpenCall(e, path, flags)];
      if r.setMaxDbs != MDB_SUCCESS then Step(e, Status(r.setMaxDbs), c1)
      else if r.setMaxReaders != MDB_SUCCESS then Step(e, Status(r.setMaxReaders), c2)
      else if r.setMapSize != MDB_SUCCESS then Step(e, Status(r.setMapSize), c3)
      else if r.envOpen != MDB_SUCCESS then Step(e, Status(r.envOpen), c4)
      else Step(e.(isOpen := true), Success, c4)
  }

  /** The step of `open()` that makes sure a handle is held: `create()`
      when there is none, nothing otherwise. */
  function Acquire(e: Env, rc: int): (s: Step)
    ensures e.hasHandle ==> s == Step(e, Success, [])
    ensures !e.hasHandle ==> s == Step(e.(hasHandle := rc == MDB_SUCCESS), FromCode(rc), [EnvCreate])
  {
    if !e.hasHandle then Create(e, rc) else Step(e, Success, [])
  }

  /** The tail of `open()` once a handle is held: `init()` on the
      environment's own path and flags; when it fails, `cleanup()` then
      `create()`, whose code is dropped, and `init()`'s code is kept as the
      result and the last error. */
  function InitOrRecycle(e: Env, r: OpenReplies): (s: Step)
    requires e.hasHandle
    ensures var init := Init(e, e.path, e.flags, r);
      s.status == init.status &&
      s.calls == init.calls + (if init.status.Ok() then [] else [EnvClose, EnvCreate])
    ensures s.status.Ok() ==> s.env == e.(isOpen := true)
    ensures !s.status.Ok() ==> !s.env.isOpen && (s.env.hasHandle <==> r.recreate == 0)
    ensures s.env.lastError == s.status || s.status.Ok()
    ensures ConfigOf(s.env) == ConfigOf(e)
    ensures HidesEphemeral(s.calls)
  {
    var ir := Init(e, e.path, e.flags, r);
    if ir.status.Ok() then
      Step(ir.env, Success, ir.calls)
    else
      var cl := Cleanup(ir.env);
      var rc := Create(cl.env, r.recreate);
      Step(rc.env.(lastError := ir.status), ir.status, ir.calls + cl.calls + rc.calls)
  }

  /** `open()` once the path is resolved: a handle is acquired, a failure
      of `create()` being returned as is, then `init()` runs with recycling
      on failure. */
  function Attach(e: Env, r: OpenReplies): (s: Step)
    requires e.lastError == Success
    ensures Valid(e) ==> Valid(s.env)
    ensures s.env.lastError == s.status
    ensures !e.isOpen ==> (s.env.isOpen <==> s.status.Ok())
    ensures !e.isOpen ==>
      (s.status.Ok() <==>
        (e.hasHandle || r.create == 0) &&
        r.setMaxDbs == 0 && r.setMaxReaders == 0 && r.setMapSize == 0 && r.envOpen == 0)
    ensures !e.hasHandle && r.create != 0 ==>
      s.status.code == r.create && s.calls == [EnvCreate] && !s.env.hasHandle
    ensures e.hasHandle || r.create == 0 ==>
      var init := Init(e.(hasHandle := true), e.path, e.flags, r);
      s.status == init.status &&
      s.calls == (if e.hasHandle then [] else [EnvCreate]) + init.calls +
                 (if init.status.Ok() then [] else [EnvClose, EnvCreate]) &&
      (!init.status.Ok() ==> (s.env.hasHandle <==> r.recreate == 0))
    ensures HidesEphemeral(s.calls)
    ensures !e.isOpen && s.status.Ok() ==>
      |s.calls| > 0 && s.calls[|s.calls| - 1] == EnvOpen(e.path, e.flags - MDB_EPHEMERAL, e.mode)
    ensures ConfigOf(s.env) == ConfigOf(e)
  {
    var cr := Acquire(e, r.create);
    if !cr.status.Ok() then
      Step(cr.env.(lastError := cr.status), cr.status, cr.calls)
    else
      var ir := InitOrRecycle(cr.env, r);
      Step(ir.env, ir.status, cr.calls + ir.calls)
  }

  /** `open()` as written. On a closed environment: an unresolvable default
      path gives MDB_INVALID without an engine call; a failed `create()`
      returns its code; otherwise `init()` runs, and when it fails the handle
      is closed and a new one created, whose own code is dropped, and
      `init()`'s code is returned. On an open environment `init()` refuses
      and the same failure path closes the live handle. */
  function OpenAsWritten(e: Env, cwd: CurrentDir, r: OpenReplies): (s: Step)
    ensures Valid(e) ==> Valid(s.env)
    ensures s.env.lastError == s.status
    ensures !e.isOpen ==> (s.env.isOpen <==> s.status.Ok())
    ensures !e.isOpen ==>
      (s.status.Ok() <==>
        (e.path != [] || cwd.Cwd?) && (e.hasHandle || r.create == 0) &&
        r.setMaxDbs == 0 && r.setMaxReaders == 0 && r.setMapSize == 0 && r.envOpen == 0)
    ensures !e.isOpen && e.path == [] && cwd.CwdError? ==>
      s == Step(e.(lastError := Status(MDB_INVALID)), Status(MDB_INVALID), [])
    ensures !e.isOpen && (e.path != [] || cwd.Cwd?) && !e.hasHandle && r.create != 0 ==>
      s.status.code == r.create && s.calls == [EnvCreate] && !s.env.hasHandle
    ensures !e.isOpen && (e.path != [] || cwd.Cwd?) && (e.hasHandle || r.create == 0) ==>
      var held := e.(hasHandle := true, lastError := Success, path := ResolvePath(e.path, e.flags, cwd));
      var init := Init(held, held.path, held.flags, r);
      s.status == init.status &&
      s.calls == (if e.hasHandle then [] else [EnvCreate]) + init.calls +
                 (if init.status.Ok() then [] else [EnvClose, EnvCreate]) &&
      (!init.status.Ok() ==> (s.env.hasHandle <==> r.recreate == 0))
    ensures HidesEphemeral(s.calls)
    ensures s.env.path == (if e.path == [] && cwd.CwdError? then e.path else ResolvePath(e.path, e.flags, cwd))
    ensures !e.isOpen && s.status.Ok() ==>
      |s.calls| > 0 && s.calls[|s.calls| - 1] == EnvOpen(s.env.path, e.flags - MDB_EPHEMERAL, e.mode)
    ensures ConfigOf(s.env) == ConfigOf(e).(path := s.env.path)
  {
    var e0 := e.(lastError := Success);
    if e0.path == [] && cwd.CwdError? then
      Step(e0.(lastError := Status(MDB_INVALID)), Status(MDB_INVALID), [])
    else
      Attach(e0.(path := ResolvePath(e0.path, e0.flags, cwd)), r)
  }

  /** `open()` as its documentation describes it: an environment that is
      already open is refused with MDB_INVALID and left open; otherwise it
      behaves as written. */
  function Open(e: Env, cwd: CurrentDir, r: OpenReplies): (s: Step)
    ensures Valid(e) ==> Valid(s.env)
    ensures s.env.lastError == s.status
    ensures e.isOpen ==> s == Step(e.(lastError := Status(MDB_INVALID)), Status(MDB_INVALID), [])
    ensures s.env.isOpen <==> e.isOpen || s.status.Ok()
    ensures !e.isOpen ==> s == OpenAsWritten(e, cwd, r)
    ensures HidesEphemeral(s.calls)
    ensures ConfigOf(s.env) == ConfigOf(e).(path := s.env.path)
  {
    if e.isOpen then Step(e.(lastError := Status(MDB_INVALID)), Status(MDB_INVALID), [])
    else OpenAsWritten(e, cwd, r)
  }

  /** An `open()` that fails leaves the environment closed with its
      configuration and resolved path, so a retry whose engine calls all
      succeed opens it. */
  lemma OpenRetry(e: Env, cwd: CurrentDir, r: OpenReplies, cwd2: CurrentDir)
    requires !e.isOpen && !Open(e, cwd, r).status.Ok()
    requires e.path != [] || cwd2.Cwd?
    ensures !Open(e, cwd, r).env.isOpen
    ensures Open(Open(e, cwd, r).env, cwd2, OpenReplies(0, 0, 0, 0, 0, 0)).status.Ok()
    ensures Open(Open(e, cwd, r).env, cwd2, OpenReplies(0, 0, 0, 0, 0, 0)).env.isOpen
  {
  }

  /** The default path: with no path set, the environment lives in the
      current directory, as `lmdb.mdb` in single-file mode. */
  lemma OpenDefaultPath(e: Env, dir: Path)
    requires !e.isOpen && e.path == []
    ensures var s := Open(e, Cwd(dir), OpenReplies(0, 0, 0, 0, 0, 0));
      s.status.Ok() &&
      s.env.path == (if HasFlag(e.flags, MDB_NOSUBDIR) then Join(dir, DEFAULT_NAME) else dir)
  {
  }

  /** The source's `open()` on an environment that is already open returns
      MDB_INVALID, as documented, but also closes the live handle: the
      environment is no longer open afterwards. */
  lemma OpenAsWrittenClosesOpenEnv(e: Env, cwd: CurrentDir, r: OpenReplies)
    requires Valid(e) && e.isOpen && e.path != []
    ensures OpenAsWritten(e, cwd, r).status.code == MDB_INVALID
    ensures !OpenAsWritten(e, cwd, r).env.isOpen
    ensures EnvClose in OpenAsWritten(e, cwd, r).calls
    ensures Open(e, cwd, r).env.isOpen
  {
  }

  // ---------------------------------------------------------------------------
  // Files: exist(), remove(); close()

  /** The backing files of an environment: the file itself in single-file
      mode, otherwise the data and lock files inside the directory. */
  function BackingFiles(e: Env): (fs: set<Path>)
    ensures HasFlag(e.flags, MDB_NOSUBDIR) ==> fs == {e.path}
    ensures !HasFlag(e.flags, MDB_NOSUBDIR) ==> |fs| == 2
    ensures !HasFlag(e.flags, MDB_NOSUBDIR) ==> fs == {Join(e.path, DATA_FILE), Join(e.path, LOCK_FILE)}
    ensures !HasFlag(e.flags, MDB_NOSUBDIR) ==>
      forall f | f in fs :: InDir(f, e.path, DATA_FILE) || InDir(f, e.path, LOCK_FILE)
  {
    if HasFlag(e.flags, MDB_NOSUBDIR) then {e.path}
    else
      var data := Join(e.path, DATA_FILE);
      var lock := Join(e.path, LOCK_FILE);
      JoinSeparated(e.path, DATA_FILE);
      JoinSeparated(e.path, LOCK_FILE);
      assert data[|data| - |DATA_FILE|..] != lock[|lock| - |LOCK_FILE|..];
      {data, lock}
  }

  /** `exist()`, on the set of existing regular files: the path must name
      something, and every backing file must be there. */
  predicate Exist(e: Env, files: set<Path>) {
    e.path != [] && BackingFiles(e) <= files
  }

  datatype Removal = Removal(removed: bool, files: set<Path>)

  /** `remove()`: deletes the backing files, and only when the environment
      is closed and they all exist. */
  function Remove(e: Env, files: set<Path>): (r: Removal)
    ensures r.removed <==> !e.isOpen && Exist(e, files)
    ensures r.removed ==> r.files == files - BackingFiles(e) && !Exist(e, r.files)
    ensures !r.removed ==> r.files == files
  {
    if !e.isOpen && Exist(e, files) then
      if HasFlag(e.flags, MDB_NOSUBDIR) then Removal(true, files - {e.path})
      else Removal(true, files - {Join(e.path, DATA_FILE)} - {Join(e.path, LOCK_FILE)})
    else Removal(false, files)
  }

  datatype Closed = Closed(env: Env, files: set<Path>, calls: seq<Call>)

  /** `close()` (also run by the destructor): releases the handle, then, for
      an ephemeral environment, removes the backing files. */
  function Close(e: Env, files: set<Path>): (r: Closed)
    requires Valid(e)
    ensures !r.env.hasHandle && !r.env.isOpen
    ensures r.calls == (if e.hasHandle then [EnvClose] else [])
    ensures ConfigOf(r.env) == ConfigOf(e) && r.env.lastError == e.lastError
    ensures r.files == (if HasFlag(e.flags, MDB_EPHEMERAL) && Exist(e, files) then files - BackingFiles(e) else files)
  {
    var c := Cleanup(e);
    if HasFlag(c.env.flags, MDB_EPHEMERAL) then Closed(c.env, Remove(c.env, files).files, c.calls)
    else Closed(c.env, files, c.calls)
  }

  /** An environment whose path was never set, or could not be resolved,
      names no files, so closing it deletes nothing, ephemeral or not. */
  lemma CloseWithoutPathKeepsFiles(e: Env, files: set<Path>)
    requires Valid(e) && e.path == []
    ensures Close(e, files).files == files
    ensures !Remove(e, files).removed
  {
  }

  /** Closing twice: the second call issues no engine call and changes
      neither the object nor the files. */
  lemma CloseIdempotent(e: Env, files: set<Path>)
    requires Valid(e)
    ensures var c := Close(e, files);
      Close(c.env, c.files) == Closed(c.env, c.files, [])
  {
  }

  /** Ephemeral files are removed only when no handle is held: the `remove()`
      inside `close()` runs on the released object, while a direct
      `remove()` on an open environment does nothing. */
  lemma EphemeralRemovalAfterRelease(e: Env, files: set<Path>)
    requires Valid(e) && HasFlag(e.flags, MDB_EPHEMERAL) && Exist(e, files)
    ensures Close(e, files).files == files - BackingFiles(e)
    ensures Remove(Cleanup(e).env, files).removed
    ensures e.isOpen ==> Remove(e, files) == Removal(false, files)
  {
  }

  // ---------------------------------------------------------------------------
  // Guards of check() and flush(); moves

  /** `check()`: -1 unless open; otherwise the engine's count of cleared
      reader slots, or -1 when `mdb_reader_check` fails. */
  function Check(e: Env, rc: int, dead: int): (r: (int, seq<Call>))
    ensures !e.isOpen ==> r == (-1, [])
    ensures e.isOpen ==> r.1 == [ReaderCheck] && r.0 == (if rc == 0 then dead else -1)
  {
    if !e.isOpen then (-1, []) else if rc != 0 then (-1, [ReaderCheck]) else (dead, [ReaderCheck])
  }

  /** `flush(force)`: EINVAL unless open; otherwise `mdb_env_sync`'s code. */
  function Flush(e: Env, force: bool, rc: int): (r: (int, seq<Call>))
    ensures !e.isOpen ==> r == (EINVAL, [])
    ensures e.isOpen ==> r == (rc, [EnvSync(force)])
  {
    if !e.isOpen then (EINVAL, []) else (rc, [EnvSync(force)])
  }

  datatype Moved = Moved(target: Env, source: Env, calls: seq<Call>)

  /** The move constructor: the new object takes every field; the source is
      left without a handle, closed, with a success last error and the empty
      path a moved-from `std::filesystem::path` is left with. */
  function MoveConstruct(src: Env): (m: Moved)
    ensures m.target == src && m.calls == []
    ensures !m.source.hasHandle && !m.source.isOpen && m.source.lastError == Success
    ensures ConfigOf(m.source) == ConfigOf(src).(path := [])
  {
    Moved(src, src.(hasHandle := false, isOpen := false, lastError := Success, path := []), [])
  }

  /** Move assignment between distinct objects: the target's own handle is
      released by `cleanup()` (its ephemeral files are not removed), then
      it takes every field of the source, which is left as after a move. */
  function MoveAssign(dst: Env, src: Env): (m: Moved)
    ensures m.target == src
    ensures m.source == MoveConstruct(src).source
    ensures m.calls == (if dst.hasHandle then [EnvClose] else [])
  {
    var c := Cleanup(dst);
    Moved(src, MoveConstruct(src).source, c.calls)
  }

  /** A moved-from environment can be closed without any engine call and
      without deleting the files the moved-to object still uses, even when
      it is ephemeral; opening it starts by creating a new handle. */
  lemma MovedFromIsInert(src: Env, files: set<Path>)
    ensures var m := MoveConstruct(src);
      Valid(m.source) && Close(m.source, files) == Closed(m.source, files, []) &&
      Open(m.source, Cwd("/"), OpenReplies(1, 0, 0, 0, 0, 0)).calls == [EnvCreate]
  {
  }

  /** `check()` and `flush()` follow the lifecycle: after `close()`, and on
      a moved-from object, they refuse without an engine call; after an
      `open()` that succeeded, they reach the engine. */
  lemma GuardsFollowLifecycle(e: Env, files: set<Path>, cwd: CurrentDir, r: OpenReplies, rc: int, dead: int, force: bool)
    requires Valid(e)
    ensures var c := Close(e, files).env;
      Check(c, rc, dead) == (-1, []) && Flush(c, force, rc) == (EINVAL, [])
    ensures var m := MoveConstruct(e).source;
      Check(m, rc, dead) == (-1, []) && Flush(m, force, rc) == (EINVAL, [])
    ensures var o := Open(e, cwd, r).env;
      o.isOpen ==> Check(o, rc, dead).1 == [ReaderCheck] && Flush(o, force, rc) == (rc, [EnvSync(force)])
  {
  }
}
