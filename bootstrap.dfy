/**
 * The bootstrap loader (main.c): list the files under `$POCKET_ASI_ROOT`, copy each one
 * into an anonymous memory file and unlink it, publish the `name -> fd`
 * index in `POCKET_ASI_FILES`, remove the loader and the root directory, and
 * exec the interpreter on `/proc/self/fd/N` of the entry module.
 *
 * The operating system is an `Os` object: a map of regular files, a set of
 * directories, what `glob` matches for a pattern, the memory files by
 * descriptor, the next descriptor `memfd_create` hands out and the limit at
 * which it fails, and a heap that grants `budget` more allocations and counts
 * the `live` blocks not yet freed. C strings and arrays the loader mallocs are
 * Dafny arrays, so every write the loader performs is bounds-checked.
 */
module Bootstrap {
  import opened Wrappers
  import opened Text
  import FdIndex

  const RootVar := "POCKET_ASI_ROOT"
  const LoaderVar := "POCKET_ASI_LOADER"
  const PythonVar := "POCKET_ASI_PYTHON"

  /** `strlen` over a byte buffer: the bytes before the first NUL. */
  function UpToNul(b: seq<byte>): (r: seq<byte>)
    ensures |r| <= |b| && r == b[..|r|]
    ensures forall i | 0 <= i < |r| :: r[i] != 0
    ensures |r| < |b| ==> b[|r|] == 0
  {
    if b == [] || b[0] == 0 then [] else [b[0]] + UpToNul(b[1..])
  }

  /** POSIX `basename` of a path without trailing slash: the text after the last `/`. */
  function Basename(p: string): string {
    if p == [] || p[|p| - 1] == '/' then [] else Basename(p[..|p| - 1]) + [p[|p| - 1]]
  }

  predicate NoSlash(name: string) {
    forall i | 0 <= i < |name| :: name[i] != '/'
  }

  /** The basename of `dir/name` is `name` when `name` has no slash, whatever `dir` is. */
  lemma {:induction false} BasenameJoin(dir: string, name: string)
    requires NoSlash(name)
    ensures Basename(dir + "/" + name) == name
    decreases |name|
  {
    if name != [] {
      var n := name[..|name| - 1];
      assert (dir + "/" + name)[..|dir + "/" + name| - 1] == dir + "/" + n;
      BasenameJoin(dir, n);
      assert n + [name[|name| - 1]] == name;
    } else {
      assert (dir + "/")[..|dir|] == dir;
    }
  }

  /** A slot of a `char*` array: NULL, a string, or memory `malloc` left uninitialised. */
  datatype CPtr = Null | Str(text: string) | Garbage

  /** How `main` ends: it returns a status, replaces the process image, or reaches undefined behaviour. */
  datatype Outcome = Exit(code: int) | Exec(program: string, argv: seq<string>) | Undefined(reason: string)

  datatype OsState = OsState(
    env: map<string, string>,
    disk: map<string, seq<byte>>,
    dirs: set<string>,
    globs: map<string, seq<string>>,
    memfds: map<int, seq<byte>>,
    nextFd: int,
    fdLimit: int,
    budget: nat,
    live: int)

  /** Descriptors handed out so far are below `nextFd`, which is never negative. */
  predicate WellFormed(st: OsState) {
    0 <= st.nextFd && forall fd | fd in st.memfds :: 0 <= fd < st.nextFd
  }

  /** A successful `malloc`/`strdup`. */
  function Granted(st: OsState): OsState
    requires st.budget > 0
  {
    st.(budget := st.budget - 1, live := st.live + 1)
  }

  /** `n` calls of `free`. */
  function Freed(st: OsState, n: nat): OsState {
    st.(live := st.live - n)
  }

  /** `read_file(path)` (main.c:42-63): the file's bytes, or NULL when `fopen` or `malloc` fails. */
  function ReadFileSpec(st: OsState, path: string): (Option<seq<byte>>, OsState) {
    if path !in st.disk || st.budget == 0 then (None, st)
    else (Some(st.disk[path]), Granted(st))
  }

  /**
   * `file_to_fd(path)` (main.c:102-118). On success a fresh memory file holds
   * the bytes up to the first NUL and the path is unlinked; on failure the
   * result is -1 and the file stays where it was.
   */
  function FileToFdSpec(st: OsState, path: string): (r: (int, OsState))
    ensures r.1.env == st.env && r.1.globs == st.globs && r.1.dirs == st.dirs
    ensures r.1.fdLimit == st.fdLimit && r.1.live == st.live
  {
    if path !in st.disk || st.budget == 0 then (-1, st)
    else if st.nextFd >= st.fdLimit then (-1, st.(budget := st.budget - 1))
    else
      var fd := st.nextFd;
      (fd, st.(budget := st.budget - 1,
               memfds := st.memfds[fd := UpToNul(st.disk[path])],
               nextFd := fd + 1,
               disk := st.disk - {path}))
  }

  /**
   * `ls(pattern)` (main.c:70-100): the glob matches, each copied; any failure
   * returns `{NULL, 0}` with every partial copy freed.
   */
  function LsSpec(st: OsState, pattern: string): (r: (Option<seq<string>>, OsState))
    ensures r.1 == st.(budget := r.1.budget, live := r.1.live)
  {
    if pattern !in st.globs || st.globs[pattern] == [] || st.budget == 0 then (None, st)
    else
      var matches := st.globs[pattern];
      if st.budget - 1 < |matches| then (None, st.(budget := 0))
      else (Some(matches), st.(budget := st.budget - 1 - |matches|, live := st.live + 1 + |matches|))
  }

  /** The state of main's conversion loop (main.c:152-166) after some entries. */
  datatype Progress = Progress(st: OsState, names: seq<string>, fds: seq<int>, loaderFd: int, ok: bool)

  /** One iteration: convert, copy the basename (NULL makes the following `strlen` undefined), match the loader. */
  function ConvertStep(p: Progress, path: string, loader: string): Progress {
    if !p.ok then p
    else
      var r := FileToFdSpec(p.st, path);
      if r.1.budget == 0 then p.(st := r.1, ok := false)
      else
        var name := Basename(path);
        Progress(Granted(r.1), p.names + [name], p.fds + [r.0], if name == loader then r.0 else p.loaderFd, true)
  }

  function ConvertPrefix(st: OsState, paths: seq<string>, loader: string, k: nat): (p: Progress)
    requires k <= |paths|
    ensures |p.names| == |p.fds| && (p.ok ==> |p.fds| == k)
  {
    if k == 0 then Progress(st, [], [], -1, true)
    else ConvertStep(ConvertPrefix(st, paths, loader, k - 1), paths[k - 1], loader)
  }

  /** `rmdir(root)`: succeeds only on an existing, empty directory. */
  function Rmdir(st: OsState, root: string): set<string> {
    if root in st.dirs
       && (forall q | q in st.disk :: !StartsWith(q, root + "/"))
       && (forall d | d in st.dirs :: !StartsWith(d, root + "/"))
    then st.dirs - {root}
    else st.dirs
  }

  /** Bytes main.c allocates for `/proc/self/fd/N` (main.c:203). */
  function ProcPathAllocAsWritten(fd: int): nat {
    14 + |Decimal(fd)|
  }

  /** The allocation `sprintf(buf, "/proc/self/fd/%d", fd)` needs: the text and its NUL. */
  function ProcPathAlloc(fd: int): nat {
    15 + |Decimal(fd)|
  }

  /** Where a phase of `main` leaves the process: going on with a value, or finished with an outcome. */
  datatype Stage<T> = Go(value: T, st: OsState) | Stop(outcome: Outcome, st: OsState)

  /** main.c:144-146: build the pattern, list the root and free the pattern. */
  function ListSpec(st: OsState, root: string): Stage<seq<string>> {
    if st.budget == 0 then Stop(Undefined("glob on a NULL pattern"), st)
    else
      var ls := LsSpec(Granted(st), root + "/*");
      var st1 := Freed(ls.1, 1);
      match ls.0
      case None => Stop(Undefined("dereference of the NULL listing"), st1)
      case Some(paths) => Go(paths, st1)
  }

  /**
   * main.c:144-150: list the root, then allocate the `names` and `fds`
   * arrays. A NULL from any of these is dereferenced by the code that
   * follows.
   */
  function SetupSpec(st: OsState, root: string): Stage<seq<string>> {
    match ListSpec(st, root)
    case Stop(o, st1) => Stop(o, st1)
    case Go(paths, st1) =>
      if st1.budget == 0 then Stop(Undefined("write through a NULL names array"), st1)
      else
        var st2 := Granted(st1);
        if st2.budget == 0 then Stop(Undefined("write through a NULL fds array"), st2)
        else Go(paths, Granted(st2))
  }

  /**
   * main.c:168-201: give up without the loader; otherwise allocate, write
   * and export the index, freeing the names, the arrays and the index.
   * `setenv` keeps its own copy of the entry, so it fails, and main
   * returns 1, when that copy cannot be allocated.
   */
  function PublishSpec(p: Progress, count: nat): Stage<string>
    requires |p.names| == |p.fds|
  {
    if p.loaderFd == -1 || p.st.budget == 0 then Stop(Exit(1), p.st)
    else
      var json := FdIndex.Serialize(p.names, p.fds);
      var st3 := Freed(Granted(p.st), count + 2);
      if st3.budget == 0 then Stop(Exit(1), st3)
      else
        var st4 := Granted(st3);
        Go(json, Freed(st4.(env := st4.env[FdIndex.IndexVariable := json]), 1))
  }

  /** main.c:203-217: build `/proc/self/fd/N`, remove the loader binary and the root, and exec. */
  function LaunchSpec(st: OsState, argv0: string, root: string, python: string, loaderFd: int): (Outcome, OsState) {
    if st.budget == 0 then (Undefined("sprintf through a NULL path buffer"), st)
    else
      var st5 := Granted(st);
      var st6 := st5.(disk := st5.disk - {argv0}, dirs := Rmdir(st5.(disk := st5.disk - {argv0}), root));
      var procPath := FdIndex.ProcFdPrefix + Decimal(loaderFd);
      if python in st6.disk then (Exec(python, [python, procPath]), st6) else (Exit(0), st6)
  }

  /** The process `main` (main.c:120-218) produces from an OS state, with `argv[0]` the loader's own path. */
  function MainSpec(st: OsState, argv0: string): (Outcome, OsState) {
    if RootVar !in st.env || LoaderVar !in st.env || PythonVar !in st.env then (Exit(1), st)
    else
      var root, loader, python := st.env[RootVar], st.env[LoaderVar], st.env[PythonVar];
      match SetupSpec(st, root)
      case Stop(o, st1) => (o, st1)
      case Go(paths, st2) =>
        var p := ConvertPrefix(st2, paths, loader, |paths|);
        if !p.ok then (Undefined("strlen of a NULL basename copy"), p.st)
        else match PublishSpec(p, |paths|)
          case Stop(o, st3) => (o, st3)
          case Go(_, st4) => LaunchSpec(st4, argv0, root, python, p.loaderFd)
  }

  // ---------------------------------------------------------------------
  // The listing's NULL sentinel (main.c:74, 80-91, 153)
  // ---------------------------------------------------------------------

  /** The `char*` array `ls` returns: one slot per match, then the slot after the last. */
  function Slots(paths: seq<string>, last: CPtr): (r: seq<CPtr>)
    ensures |r| == |paths| + 1 && r[|paths|] == last
    ensures forall i | 0 <= i < |paths| :: r[i] == Str(paths[i])
  {
    seq(|paths|, i requires 0 <= i < |paths| => Str(paths[i])) + [last]
  }

  /**
   * Where `for (; *file; file++)` stops: the index of the first NULL slot
   * when every slot before it is a string, or `None` when the loop reads an
   * uninitialised slot or runs past the array first.
   */
  function LoopBound(slots: seq<CPtr>): (r: Option<nat>)
    ensures r.Some? ==> r.value < |slots| && slots[r.value] == Null
    ensures r.Some? ==> forall i | 0 <= i < r.value :: slots[i].Str?
    ensures r.None? ==> forall i | 0 <= i < |slots| && slots[i] == Null :: exists j | 0 <= j < i :: !slots[j].Str?
  {
    if slots == [] || slots[0].Garbage? then None
    else if slots[0] == Null then Some(0)
    else match LoopBound(slots[1..])
      case None => (assert forall i | 1 <= i < |slots| :: slots[1..][i - 1] == slots[i]; None)
      case Some(k) => Some(k + 1)
  }

  /**
   * As written, `ls` leaves the slot after the last match uninitialised, so
   * main's loop never meets the NULL it stops at: it reads that slot, which
   * is undefined behaviour.
   */
  lemma {:induction false} SentinelMissing(paths: seq<string>)
    ensures LoopBound(Slots(paths, Garbage)).None?
    decreases |paths|
  {
    if paths != [] {
      assert Slots(paths, Garbage)[1..] == Slots(paths[1..], Garbage);
      SentinelMissing(paths[1..]);
    }
  }

  /** With the sentinel stored, main's loop visits exactly the matches. */
  lemma {:induction false} SentinelPresent(paths: seq<string>)
    ensures LoopBound(Slots(paths, Null)) == Some(|paths|)
    decreases |paths|
  {
    if paths != [] {
      assert Slots(paths, Null)[1..] == Slots(paths[1..], Null);
      SentinelPresent(paths[1..]);
    }
  }

  // ---------------------------------------------------------------------
  // The descriptor path buffer (main.c:203-204)
  // ---------------------------------------------------------------------

  /**
   * `sprintf` writes the text and a NUL, one byte more than main.c
   * allocates for `/proc/self/fd/N`, whatever the descriptor.
   */
  lemma ProcPathOverflow(fd: int)
    ensures |FdIndex.ProcFdPrefix + Decimal(fd)| + 1 == ProcPathAllocAsWritten(fd) + 1
    ensures !(|FdIndex.ProcFdPrefix + Decimal(fd)| < ProcPathAllocAsWritten(fd))
    ensures |FdIndex.ProcFdPrefix + Decimal(fd)| < ProcPathAlloc(fd)
  {
  }

  // ---------------------------------------------------------------------
  // Facts about the conversion loop
  // ---------------------------------------------------------------------

  predicate Distinct(xs: seq<string>) {
    forall i, j | 0 <= i < j < |xs| :: xs[i] != xs[j]
  }

  /** The loop records one name and one descriptor per visited entry and touches no other part of the OS. */
  lemma {:induction false} ConvertShape(st: OsState, paths: seq<string>, loader: string, k: nat)
    requires k <= |paths|
    ensures var p := ConvertPrefix(st, paths, loader, k);
      p.st.env == st.env && p.st.globs == st.globs && p.st.dirs == st.dirs && p.st.fdLimit == st.fdLimit
    ensures var p := ConvertPrefix(st, paths, loader, k);
      p.ok ==> (|p.names| == k && |p.fds| == k && p.st.live == st.live + k
        && forall i | 0 <= i < k :: p.names[i] == Basename(paths[i]))
  {
    if k > 0 {
      ConvertShape(st, paths, loader, k - 1);
    }
  }

  /** Once a `strdup` has failed, later iterations change nothing: the run is already undefined. */
  lemma {:induction false} ConvertStuck(st: OsState, paths: seq<string>, loader: string, k: nat, j: nat)
    requires k <= j <= |paths|
    requires !ConvertPrefix(st, paths, loader, k).ok
    ensures ConvertPrefix(st, paths, loader, j) == ConvertPrefix(st, paths, loader, k)
    decreases j
  {
    if j > k {
      ConvertStuck(st, paths, loader, k, j - 1);
    }
  }

  /** One `file_to_fd`: either -1 with disk and descriptors untouched, or the next descriptor with the file moved into it. */
  lemma FileToFdFacts(st: OsState, path: string)
    requires WellFormed(st)
    ensures var r := FileToFdSpec(st, path);
      WellFormed(r.1)
      && (r.0 < 0 ==> r.0 == -1 && r.1.disk == st.disk && r.1.memfds == st.memfds && r.1.nextFd == st.nextFd)
      && (r.0 >= 0 ==>
            r.0 == st.nextFd && path in st.disk && r.1.disk == st.disk - {path}
            && r.1.memfds == st.memfds[r.0 := UpToNul(st.disk[path])] && r.1.nextFd == st.nextFd + 1)
  {
  }

  /** One iteration of a loop still running, spelled out: one descriptor more, and the file moved or left. */
  lemma StepFacts(q: Progress, path: string, loader: string)
    requires q.ok && WellFormed(q.st)
    ensures var p := ConvertStep(q, path, loader);
      p.ok ==>
        (WellFormed(p.st) && |p.fds| == |q.fds| + 1 && p.fds == q.fds + [p.fds[|q.fds|]]
         && (p.fds[|q.fds|] < 0 ==>
               (p.fds[|q.fds|] == -1 && p.st.disk == q.st.disk && p.st.memfds == q.st.memfds && p.st.nextFd == q.st.nextFd))
         && (p.fds[|q.fds|] >= 0 ==>
               (p.fds[|q.fds|] == q.st.nextFd && path in q.st.disk && p.st.disk == q.st.disk - {path}
                && p.st.memfds == q.st.memfds[q.st.nextFd := UpToNul(q.st.disk[path])] && p.st.nextFd == q.st.nextFd + 1)))
  {
    FileToFdFacts(q.st, path);
  }

  /** Descriptors recorded so far are -1 or fresh and increasing, and older memory files are untouched. */
  predicate FdsFresh(st: OsState, p: Progress) {
    WellFormed(p.st) && st.nextFd <= p.st.nextFd
    && (forall i | 0 <= i < |p.fds| :: p.fds[i] == -1 || st.nextFd <= p.fds[i] < p.st.nextFd)
    && (forall i, j | 0 <= i < j < |p.fds| && p.fds[i] >= 0 && p.fds[j] >= 0 :: p.fds[i] < p.fds[j])
    && (forall fd | fd in st.memfds :: fd in p.st.memfds && p.st.memfds[fd] == st.memfds[fd])
  }

  /**
   * The disk only loses files, and only visited ones that got a descriptor:
   * what is left is as it was, and every file not yet visited is still there.
   */
  predicate DiskTracked(st: OsState, paths: seq<string>, p: Progress) {
    |p.fds| <= |paths|
    && (forall x | x in p.st.disk :: x in st.disk && p.st.disk[x] == st.disk[x])
    && (forall x | x in st.disk && x !in paths[..|p.fds|] :: x in p.st.disk)
    && (forall i | 0 <= i < |p.fds| && p.fds[i] >= 0 :: paths[i] !in p.st.disk)
  }

  /** A converted file was on disk, and its memory file holds the bytes before its first NUL. */
  predicate MovedTracked(st: OsState, paths: seq<string>, p: Progress) {
    |p.fds| <= |paths|
    && forall i | 0 <= i < |p.fds| && p.fds[i] >= 0 ::
         paths[i] in st.disk && p.fds[i] in p.st.memfds && p.st.memfds[p.fds[i]] == UpToNul(st.disk[paths[i]])
  }

  /** A file whose conversion failed is still on disk. */
  predicate FailedTracked(st: OsState, paths: seq<string>, p: Progress) {
    |p.fds| <= |paths|
    && forall i | 0 <= i < |p.fds| && p.fds[i] == -1 && paths[i] in st.disk :: paths[i] in p.st.disk
  }

  /** Everything the conversion loop keeps track of, for a state `p` it reached from `st` over `paths`. */
  predicate Tracked(st: OsState, paths: seq<string>, p: Progress) {
    FdsFresh(st, p) && DiskTracked(st, paths, p) && MovedTracked(st, paths, p) && FailedTracked(st, paths, p)
  }

  lemma FdsStep(st: OsState, q: Progress, path: string, loader: string)
    requires q.ok && FdsFresh(st, q)
    ensures var p := ConvertStep(q, path, loader);
      p.ok ==> FdsFresh(st, p)
  {
    var p := ConvertStep(q, path, loader);
    if p.ok {
      StepFacts(q, path, loader);
      forall fd | fd in st.memfds
        ensures fd in p.st.memfds && p.st.memfds[fd] == st.memfds[fd]
      {
        assert fd in q.st.memfds && fd < q.st.nextFd;
      }
    }
  }

  lemma DiskStep(st: OsState, paths: seq<string>, q: Progress, loader: string)
    requires q.ok && WellFormed(q.st) && |q.fds| < |paths| && DiskTracked(st, paths, q)
    ensures var p := ConvertStep(q, paths[|q.fds|], loader);
      p.ok ==> DiskTracked(st, paths, p)
  {
    var k := |q.fds|;
    var p := ConvertStep(q, paths[k], loader);
    if p.ok {
      StepFacts(q, paths[k], loader);
      assert p.st.disk.Keys <= q.st.disk.Keys;
      assert paths[..k + 1] == paths[..k] + [paths[k]];
      forall x | x in st.disk && x !in paths[..k + 1]
        ensures x in p.st.disk
      {
        assert x in q.st.disk && x != paths[k];
      }
    }
  }

  /** Files moved before a step stay moved, and the step's own file is moved into the fresh descriptor. */
  lemma MovedStep(st: OsState, paths: seq<string>, q: Progress, loader: string)
    requires q.ok && |q.fds| < |paths| && FdsFresh(st, q) && DiskTracked(st, paths, q) && MovedTracked(st, paths, q)
    ensures var p := ConvertStep(q, paths[|q.fds|], loader);
      p.ok ==> MovedTracked(st, paths, p)
  {
    var k := |q.fds|;
    var p := ConvertStep(q, paths[k], loader);
    if p.ok {
      StepFacts(q, paths[k], loader);
      forall i | 0 <= i < k + 1 && p.fds[i] >= 0
        ensures paths[i] in st.disk && p.fds[i] in p.st.memfds
        ensures p.st.memfds[p.fds[i]] == UpToNul(st.disk[paths[i]])
      {
        if i < k {
          assert p.fds[i] == q.fds[i] && q.fds[i] < q.st.nextFd;
        }
      }
    }
  }

  lemma FailedStep(st: OsState, paths: seq<string>, q: Progress, loader: string)
    requires Distinct(paths) && q.ok && WellFormed(q.st) && |q.fds| < |paths|
    requires DiskTracked(st, paths, q) && FailedTracked(st, paths, q)
    ensures var p := ConvertStep(q, paths[|q.fds|], loader);
      p.ok ==> FailedTracked(st, paths, p)
  {
    var k := |q.fds|;
    var p := ConvertStep(q, paths[k], loader);
    if p.ok {
      StepFacts(q, paths[k], loader);
      assert paths[k] !in paths[..k];
      forall i | 0 <= i < k + 1 && p.fds[i] == -1 && paths[i] in st.disk
        ensures paths[i] in p.st.disk
      {
        if i < k {
          assert p.fds[i] == q.fds[i] && paths[i] != paths[k];
        }
      }
    }
  }

  /** One iteration keeps everything the loop tracks. */
  lemma TrackedStep(st: OsState, paths: seq<string>, q: Progress, loader: string)
    requires Distinct(paths) && q.ok && |q.fds| < |paths| && Tracked(st, paths, q)
    ensures var p := ConvertStep(q, paths[|q.fds|], loader);
      p.ok ==> Tracked(st, paths, p)
  {
    FdsStep(st, q, paths[|q.fds|], loader);
    DiskStep(st, paths, q, loader);
    MovedStep(st, paths, q, loader);
    FailedStep(st, paths, q, loader);
  }

  /**
   * Over distinct paths, every state the loop reaches while still running
   * keeps track of descriptors, disk and memory files as `Tracked` says.
   */
  lemma {:induction false} ConvertTracked(st: OsState, paths: seq<string>, loader: string, k: nat)
    requires WellFormed(st) && Distinct(paths) && k <= |paths|
    ensures var p := ConvertPrefix(st, paths, loader, k);
      p.ok ==> Tracked(st, paths, p)
    decreases k
  {
    if k > 0 {
      var q := ConvertPrefix(st, paths, loader, k - 1);
      ConvertTracked(st, paths, loader, k - 1);
      assert ConvertPrefix(st, paths, loader, k) == ConvertStep(q, paths[k - 1], loader);
      if q.ok {
        TrackedStep(st, paths, q, loader);
      }
    }
  }

  /**
   * `loader_fd` is the descriptor of the last visited entry whose basename
   * is the loader's name, or -1 when no visited entry has that name.
   */
  predicate LoaderTracked(paths: seq<string>, loader: string, p: Progress) {
    |p.fds| <= |paths|
    && (forall i | 0 <= i < |p.fds| && Basename(paths[i]) == loader
                 && (forall j | i < j < |p.fds| :: Basename(paths[j]) != loader) :: p.loaderFd == p.fds[i])
    && ((forall i | 0 <= i < |p.fds| :: Basename(paths[i]) != loader) ==> p.loaderFd == -1)
  }

  lemma LoaderStep(paths: seq<string>, q: Progress, loader: string)
    requires q.ok && |q.fds| < |paths| && LoaderTracked(paths, loader, q)
    ensures var p := ConvertStep(q, paths[|q.fds|], loader);
      p.ok ==> LoaderTracked(paths, loader, p)
  {
  }

  lemma {:induction false} ConvertLoader(st: OsState, paths: seq<string>, loader: string, k: nat)
    requires k <= |paths|
    ensures var p := ConvertPrefix(st, paths, loader, k);
      p.ok ==> LoaderTracked(paths, loader, p)
    decreases k
  {
    if k > 0 {
      var q := ConvertPrefix(st, paths, loader, k - 1);
      ConvertLoader(st, paths, loader, k - 1);
      assert ConvertPrefix(st, paths, loader, k) == ConvertStep(q, paths[k - 1], loader);
      if q.ok {
        LoaderStep(paths, q, loader);
      }
    }
  }

  // ---------------------------------------------------------------------
  // What main achieves
  // ---------------------------------------------------------------------

  /** What `glob` lists under the root in the tree the server ships: distinct `root/name` entries with plain, slash-free names. */
  predicate SaneListing(root: string, paths: seq<string>) {
    Distinct(paths)
    && forall i | 0 <= i < |paths| ::
      |root| + 1 < |paths[i]| && paths[i][..|root| + 1] == root + "/"
      && NoSlash(paths[i][|root| + 1..]) && FdIndex.PlainName(paths[i][|root| + 1..])
  }

  /** The phases before conversion change only the heap, and go on with exactly what `glob` matched. */
  lemma SetupFacts(st: OsState, root: string)
    ensures var s := SetupSpec(st, root);
      s.st == st.(budget := s.st.budget, live := s.st.live)
      && (s.Go? ==> root + "/*" in st.globs && s.value == st.globs[root + "/*"] && s.value != []
                    && s.st.budget == st.budget - 4 - |s.value|)
  {
  }

  /** In a sane listing the basenames are the entry names, and they are distinct and plain. */
  lemma SaneNames(root: string, paths: seq<string>)
    requires SaneListing(root, paths)
    ensures forall i | 0 <= i < |paths| :: Basename(paths[i]) == paths[i][|root| + 1..]
    ensures forall i | 0 <= i < |paths| :: FdIndex.PlainName(Basename(paths[i]))
    ensures forall i, j | 0 <= i < j < |paths| :: Basename(paths[i]) != Basename(paths[j])
  {
    forall i | 0 <= i < |paths|
      ensures Basename(paths[i]) == paths[i][|root| + 1..]
    {
      assert paths[i] == root + "/" + paths[i][|root| + 1..];
      BasenameJoin(root, paths[i][|root| + 1..]);
    }
    forall i, j | 0 <= i < j < |paths|
      ensures Basename(paths[i]) != Basename(paths[j])
    {
      assert paths[i] == root + "/" + paths[i][|root| + 1..];
      assert paths[j] == root + "/" + paths[j][|root| + 1..];
    }
  }

  /** After conversion, the names are the entries' names, plain and distinct, as the index round trip needs. */
  lemma ConvertedNames(st: OsState, root: string, paths: seq<string>, loader: string)
    requires SaneListing(root, paths)
    requires ConvertPrefix(st, paths, loader, |paths|).ok
    ensures var p := ConvertPrefix(st, paths, loader, |paths|);
      |p.names| == |paths|
      && (forall i | 0 <= i < |paths| :: p.names[i] == Basename(paths[i]) && paths[i] == root + "/" + p.names[i])
      && (forall i | 0 <= i < |paths| :: FdIndex.PlainName(p.names[i]))
      && (forall i, j | 0 <= i < j < |paths| :: p.names[i] != p.names[j])
  {
    ConvertShape(st, paths, loader, |paths|);
    SaneNames(root, paths);
    forall i | 0 <= i < |paths|
      ensures paths[i] == root + "/" + Basename(paths[i])
    {
      assert paths[i] == paths[i][..|root| + 1] + paths[i][|root| + 1..];
    }
  }

  /** The entry the loader descriptor was noted for: the one listed entry named like the loader. */
  lemma LoaderIndex(st: OsState, root: string, paths: seq<string>, loader: string) returns (i: nat)
    requires WellFormed(st) && SaneListing(root, paths)
    requires ConvertPrefix(st, paths, loader, |paths|).ok && ConvertPrefix(st, paths, loader, |paths|).loaderFd != -1
    ensures var p := ConvertPrefix(st, paths, loader, |paths|);
      i < |paths| == |p.fds| && paths[i] == root + "/" + loader && p.names[i] == loader && p.loaderFd == p.fds[i]
  {
    var p := ConvertPrefix(st, paths, loader, |paths|);
    assert |p.fds| == |paths| && exists k | 0 <= k < |paths| :: Basename(paths[k]) == loader by {
      ConvertShape(st, paths, loader, |paths|);
      ConvertLoader(st, paths, loader, |paths|);
    }
    i :| 0 <= i < |paths| && Basename(paths[i]) == loader;
    assert p.names[i] == loader && paths[i] == root + "/" + loader
      && forall j | i < j < |paths| :: Basename(paths[j]) != loader
    by {
      ConvertedNames(st, root, paths, loader);
    }
    assert p.loaderFd == p.fds[i] by {
      ConvertLoader(st, paths, loader, |paths|);
    }
  }

  /** When the loader was found, it is one listed entry `root/loader`, moved into the descriptor main noted. */
  lemma LoaderEntry(st: OsState, root: string, paths: seq<string>, loader: string) returns (i: nat)
    requires WellFormed(st) && SaneListing(root, paths)
    requires ConvertPrefix(st, paths, loader, |paths|).ok && ConvertPrefix(st, paths, loader, |paths|).loaderFd != -1
    ensures var p := ConvertPrefix(st, paths, loader, |paths|);
      i < |paths| && paths[i] == root + "/" + loader && p.names[i] == loader && p.loaderFd == p.fds[i]
      && paths[i] in st.disk && p.fds[i] in p.st.memfds && p.st.memfds[p.fds[i]] == UpToNul(st.disk[paths[i]])
  {
    var p := ConvertPrefix(st, paths, loader, |paths|);
    i := LoaderIndex(st, root, paths, loader);
    assert paths[i] in st.disk && p.fds[i] in p.st.memfds && p.st.memfds[p.fds[i]] == UpToNul(st.disk[paths[i]])
    by {
      ConvertTracked(st, paths, loader, |paths|);
      assert p.fds[i] >= 0;
    }
  }

  /** The index main exports reads back, in the successor, as exactly the listed names with their descriptors. */
  lemma IndexExported(env: map<string, string>, names: seq<string>, fds: seq<int>)
    requires |names| == |fds|
    requires forall k | 0 <= k < |names| :: FdIndex.PlainName(names[k])
    requires forall k, j | 0 <= k < j < |names| :: names[k] != names[j]
    ensures var env' := env[FdIndex.IndexVariable := FdIndex.Serialize(names, fds)];
      FdIndex.ImportIndex(env').Ok?
      && FdIndex.ImportIndex(env').value.Keys == (set k | 0 <= k < |names| :: names[k])
      && (forall k | 0 <= k < |names| :: FdIndex.ImportIndex(env').value[names[k]] == fds[k])
      && (forall k | 0 <= k < |names| ::
            FdIndex.FdPathFromEnv(env', names[k]) == Ok(FdIndex.ProcFdPrefix + Decimal(fds[k])))
  {
    var env' := env[FdIndex.IndexVariable := FdIndex.Serialize(names, fds)];
    FdIndex.IndexRoundTrip(names, fds);
    FdIndex.EntriesKeys(map[], names, fds);
    forall k | 0 <= k < |names|
      ensures FdIndex.ImportIndex(env').value[names[k]] == fds[k]
    {
      FdIndex.EntriesLookup(map[], names, fds, k);
    }
  }

  /**
   * When main execs or returns 0, it got through setup and through a
   * complete conversion that found the loader; the final state is the
   * conversion's, with the index exported and the loader binary removed,
   * and an exec runs the interpreter on the loader's descriptor path.
   */
  lemma MainLaunched(st: OsState, argv0: string) returns (paths: seq<string>, p: Progress)
    requires RootVar in st.env && LoaderVar in st.env && PythonVar in st.env
    requires MainSpec(st, argv0).0.Exec? || MainSpec(st, argv0).0 == Exit(0)
    ensures var s := SetupSpec(st, st.env[RootVar]);
      s.Go? && paths == s.value && p == ConvertPrefix(s.st, paths, st.env[LoaderVar], |paths|)
      && p.ok && p.loaderFd != -1 && |p.names| == |p.fds| == |paths|
    ensures var r := MainSpec(st, argv0);
      r.1.disk == p.st.disk - {argv0} && r.1.memfds == p.st.memfds
      && r.1.env == st.env[FdIndex.IndexVariable := FdIndex.Serialize(p.names, p.fds)]
    ensures var r, python := MainSpec(st, argv0), st.env[PythonVar];
      r.0.Exec? ==> r.0 == Exec(python, [python, FdIndex.ProcFdPrefix + Decimal(p.loaderFd)])
  {
    var root, loader, python := st.env[RootVar], st.env[LoaderVar], st.env[PythonVar];
    var s := SetupSpec(st, root);
    assert s.Go? by {
      SetupStops(st, root);
    }
    assert s.st.env == st.env by {
      SetupFacts(st, root);
    }
    paths := s.value;
    p := ConvertPrefix(s.st, paths, loader, |paths|);
    assert p.ok;
    assert p.st.env == st.env && |p.names| == |p.fds| == |paths| by {
      ConvertShape(s.st, paths, loader, |paths|);
    }
    var pub := PublishSpec(p, |paths|);
    assert pub.Go?;
    assert pub.st.disk == p.st.disk && pub.st.memfds == p.st.memfds
      && pub.st.env == p.st.env[FdIndex.IndexVariable := FdIndex.Serialize(p.names, p.fds)];
    MainThrough(st, argv0);
    LaunchShape(pub.st, argv0, root, python, p.loaderFd);
  }

  /** Setup stops only on undefined behaviour. */
  lemma SetupStops(st: OsState, root: string)
    ensures SetupSpec(st, root).Stop? ==> SetupSpec(st, root).outcome.Undefined?
  {
  }

  /** A launch that execs or exits 0 had its path buffer, removed the loader binary and kept the descriptors and environment. */
  lemma LaunchShape(st: OsState, argv0: string, root: string, python: string, loaderFd: int)
    ensures var r := LaunchSpec(st, argv0, root, python, loaderFd);
      (r.0.Exec? || r.0 == Exit(0)) ==>
        st.budget > 0 && r.1.disk == st.disk - {argv0} && r.1.memfds == st.memfds && r.1.env == st.env
        && (r.0.Exec? ==> r.0 == Exec(python, [python, FdIndex.ProcFdPrefix + Decimal(loaderFd)]))
  {
  }

  /**
   * When main execs, it runs `$POCKET_ASI_PYTHON` on the descriptor path of
   * the memory file that holds the loader's source up to its first NUL, and
   * the exported index resolves the loader's own name to that same path.
   */
  lemma MainExecsLoader(st: OsState, argv0: string)
    requires WellFormed(st)
    requires RootVar in st.env && LoaderVar in st.env && PythonVar in st.env
    requires st.env[RootVar] + "/*" in st.globs ==> SaneListing(st.env[RootVar], st.globs[st.env[RootVar] + "/*"])
    ensures var r := MainSpec(st, argv0);
      var root, loader, python := st.env[RootVar], st.env[LoaderVar], st.env[PythonVar];
      r.0.Exec? ==>
        r.0.program == python && r.0.argv == [python, r.0.argv[1]]
        && FdIndex.FdPathFromEnv(r.1.env, loader) == Ok(r.0.argv[1])
        && root + "/" + loader in st.disk
        && FdIndex.ImportIndex(r.1.env).Ok? && loader in FdIndex.ImportIndex(r.1.env).value
        && var fd := FdIndex.ImportIndex(r.1.env).value[loader];
           r.0.argv[1] == FdIndex.ProcFdPrefix + Decimal(fd)
           && fd in r.1.memfds && r.1.memfds[fd] == UpToNul(st.disk[root + "/" + loader])
  {
    var root, loader := st.env[RootVar], st.env[LoaderVar];
    if MainSpec(st, argv0).0.Exec? {
      var paths, p := MainLaunched(st, argv0);
      var s := SetupSpec(st, root);
      SetupFacts(st, root);
      var i := LoaderEntry(s.st, root, paths, loader);
      ConvertedNames(s.st, root, paths, loader);
      IndexExported(st.env, p.names, p.fds);
    }
  }

  /** After a complete conversion every listed file is either moved into its descriptor or, recorded as -1, left in place. */
  lemma ConvertAccounted(st: OsState, paths: seq<string>, loader: string)
    requires WellFormed(st) && Distinct(paths)
    requires ConvertPrefix(st, paths, loader, |paths|).ok
    ensures var p := ConvertPrefix(st, paths, loader, |paths|);
      (forall i | 0 <= i < |paths| ::
         (p.fds[i] >= 0 ==> paths[i] in st.disk && paths[i] !in p.st.disk
                            && p.fds[i] in p.st.memfds && p.st.memfds[p.fds[i]] == UpToNul(st.disk[paths[i]]))
         && (p.fds[i] < 0 ==> p.fds[i] == -1 && (paths[i] in st.disk ==> paths[i] in p.st.disk)))
      && (forall q | q in st.disk && q !in paths :: q in p.st.disk)
      && (forall q | q in p.st.disk :: q in st.disk && p.st.disk[q] == st.disk[q])
  {
    ConvertTracked(st, paths, loader, |paths|);
    assert paths[..|paths|] == paths;
  }

  /** The entry names of a sane listing are plain and distinct, and they are the names the listing holds. */
  lemma ListedNames(root: string, paths: seq<string>, names: seq<string>)
    requires SaneListing(root, paths) && |names| == |paths|
    requires forall i | 0 <= i < |paths| :: names[i] == paths[i][|root| + 1..]
    ensures forall i | 0 <= i < |names| :: FdIndex.PlainName(names[i])
    ensures forall i, j | 0 <= i < j < |names| :: names[i] != names[j]
    ensures (set i | 0 <= i < |names| :: names[i]) == (set i | 0 <= i < |paths| :: paths[i][|root| + 1..])
  {
    SaneNames(root, paths);
  }

  /** The index main exports lists every file under its name with its descriptor. */
  lemma LaunchedIndex(env0: map<string, string>, root: string, paths: seq<string>,
                      names: seq<string>, fds: seq<int>, env: map<string, string>)
    requires SaneListing(root, paths) && |names| == |paths| && |fds| == |paths|
    requires forall i | 0 <= i < |paths| :: names[i] == paths[i][|root| + 1..]
    requires env == env0[FdIndex.IndexVariable := FdIndex.Serialize(names, fds)]
    ensures FdIndex.ImportIndex(env).Ok?
    ensures FdIndex.ImportIndex(env).value.Keys == (set i | 0 <= i < |paths| :: paths[i][|root| + 1..])
    ensures forall i | 0 <= i < |paths| :: FdIndex.ImportIndex(env).value[paths[i][|root| + 1..]] == fds[i]
  {
    ListedNames(root, paths, names);
    IndexExported(env0, names, fds);
    forall i | 0 <= i < |paths|
      ensures FdIndex.ImportIndex(env).value[paths[i][|root| + 1..]] == fds[i]
    {
      assert names[i] == paths[i][|root| + 1..];
    }
  }

  /**
   * The accounting of `MainMovesFiles`, stated over the converted entries and
   * the final state alone: `disk0` and `env0` are the disk and environment
   * main started from, `p` the finished conversion and `r1` the final state.
   */
  lemma LaunchedAccounting(disk0: map<string, seq<byte>>, env0: map<string, string>, root: string, argv0: string,
                           paths: seq<string>, p: Progress, r1: OsState)
    requires SaneListing(root, paths) && |p.names| == |paths| && |p.fds| == |paths|
    requires forall i | 0 <= i < |paths| :: p.names[i] == paths[i][|root| + 1..]
    requires forall i | 0 <= i < |paths| ::
         (p.fds[i] >= 0 ==> paths[i] in disk0 && paths[i] !in p.st.disk
                            && p.fds[i] in p.st.memfds && p.st.memfds[p.fds[i]] == UpToNul(disk0[paths[i]]))
         && (p.fds[i] < 0 ==> p.fds[i] == -1 && (paths[i] in disk0 ==> paths[i] in p.st.disk))
    requires forall q | q in disk0 && q !in paths :: q in p.st.disk
    requires forall q | q in p.st.disk :: q in disk0 && p.st.disk[q] == disk0[q]
    requires r1.disk == p.st.disk - {argv0} && r1.memfds == p.st.memfds
    requires r1.env == env0[FdIndex.IndexVariable := FdIndex.Serialize(p.names, p.fds)]
    ensures FdIndex.ImportIndex(r1.env).Ok?
    ensures var m := FdIndex.ImportIndex(r1.env).value;
      m.Keys == (set i | 0 <= i < |paths| :: paths[i][|root| + 1..])
      && (forall i | 0 <= i < |paths| ::
            var fd := m[paths[i][|root| + 1..]];
            (fd >= 0 ==> paths[i] in disk0 && paths[i] !in r1.disk
                         && fd in r1.memfds && r1.memfds[fd] == UpToNul(disk0[paths[i]]))
            && (fd < 0 ==> fd == -1 && (paths[i] in disk0 && paths[i] != argv0 ==>
                                          paths[i] in r1.disk && r1.disk[paths[i]] == disk0[paths[i]])))
      && (forall q | q in disk0 && q !in paths && q != argv0 :: q in r1.disk && r1.disk[q] == disk0[q])
      && (forall q | q in r1.disk :: q in disk0 && r1.disk[q] == disk0[q])
  {
    LaunchedIndex(env0, root, paths, p.names, p.fds, r1.env);
    var m := FdIndex.ImportIndex(r1.env).value;
    forall i | 0 <= i < |paths|
      ensures var fd := m[paths[i][|root| + 1..]];
            (fd >= 0 ==> paths[i] in disk0 && paths[i] !in r1.disk
                         && fd in r1.memfds && r1.memfds[fd] == UpToNul(disk0[paths[i]]))
            && (fd < 0 ==> fd == -1 && (paths[i] in disk0 && paths[i] != argv0 ==>
                                          paths[i] in r1.disk && r1.disk[paths[i]] == disk0[paths[i]]))
    {
      assert m[paths[i][|root| + 1..]] == p.fds[i];
    }
  }

  /**
   * When main gets as far as exec, every listed file is accounted for in the
   * exported index under its own name: one with a descriptor is gone from
   * the disk and its memory file holds its bytes up to the first NUL; one
   * recorded as -1 stays on disk unchanged. Files that were not listed stay
   * too, except the loader binary `argv[0]`.
   */
  lemma MainMovesFiles(st: OsState, argv0: string)
    requires WellFormed(st)
    requires RootVar in st.env && LoaderVar in st.env && PythonVar in st.env
    requires st.env[RootVar] + "/*" in st.globs ==> SaneListing(st.env[RootVar], st.globs[st.env[RootVar] + "/*"])
    ensures var r := MainSpec(st, argv0);
      var root := st.env[RootVar];
      r.0.Exec? || r.0 == Exit(0) ==>
        root + "/*" in st.globs && FdIndex.ImportIndex(r.1.env).Ok?
        && var paths, m := st.globs[root + "/*"], FdIndex.ImportIndex(r.1.env).value;
           m.Keys == (set i | 0 <= i < |paths| :: paths[i][|root| + 1..])
           && (forall i | 0 <= i < |paths| ::
                 var fd := m[paths[i][|root| + 1..]];
                 (fd >= 0 ==> paths[i] in st.disk && paths[i] !in r.1.disk
                              && fd in r.1.memfds && r.1.memfds[fd] == UpToNul(st.disk[paths[i]]))
                 && (fd < 0 ==> fd == -1 && (paths[i] in st.disk && paths[i] != argv0 ==>
                                               paths[i] in r.1.disk && r.1.disk[paths[i]] == st.disk[paths[i]])))
           && (forall q | q in st.disk && q !in paths && q != argv0 :: q in r.1.disk && r.1.disk[q] == st.disk[q])
           && (forall q | q in r.1.disk :: q in st.disk && r.1.disk[q] == st.disk[q])
  {
    var root, loader := st.env[RootVar], st.env[LoaderVar];
    var r := MainSpec(st, argv0);
    if r.0.Exec? || r.0 == Exit(0) {
      var paths, p := MainLaunched(st, argv0);
      var s := SetupSpec(st, root);
      SetupFacts(st, root);
      ConvertedNames(s.st, root, paths, loader);
      ConvertAccounted(s.st, paths, loader);
      LaunchedAccounting(st.disk, st.env, root, argv0, paths, p, r.1);
    }
  }

  /**
   * `file_to_fd` copies with `strlen`, so a file with a NUL keeps only the
   * bytes before its first NUL in the memory file.
   */
  lemma FileToFdStopsAtNul(st: OsState, path: string, n: nat)
    requires path in st.disk && st.budget > 0 && st.nextFd < st.fdLimit
    requires n < |st.disk[path]| && st.disk[path][n] == 0
    requires forall j | 0 <= j < n :: st.disk[path][j] != 0
    ensures var r := FileToFdSpec(st, path);
      r.0 == st.nextFd && r.1.memfds[r.0] == st.disk[path][..n] && |r.1.memfds[r.0]| < |st.disk[path]|
  {
    UpToNulAt(st.disk[path], n);
  }

  /** A missing variable makes main return 1 before it lists, allocates or moves anything. */
  lemma MainNeedsEnv(st: OsState, argv0: string)
    requires RootVar !in st.env || LoaderVar !in st.env || PythonVar !in st.env
    ensures MainSpec(st, argv0) == (Exit(1), st)
  {
  }

  /**
   * Without an entry named after the loader, main never execs, exports no
   * index, keeps the root and does not unlink `argv[0]`; it still has moved
   * the listed files it converted into memory files, and only those.
   */
  lemma MainWithoutLoader(st: OsState, argv0: string)
    requires RootVar in st.env && LoaderVar in st.env && PythonVar in st.env
    requires var pattern := st.env[RootVar] + "/*";
      pattern in st.globs ==> forall q | q in st.globs[pattern] :: Basename(q) != st.env[LoaderVar]
    ensures var r := MainSpec(st, argv0);
      (r.0 == Exit(1) || r.0.Undefined?) && r.1.env == st.env && r.1.dirs == st.dirs && r.1.disk.Keys <= st.disk.Keys
    ensures var r, pattern := MainSpec(st, argv0), st.env[RootVar] + "/*";
      forall q | q in st.disk && (pattern in st.globs ==> q !in st.globs[pattern]) :: q in r.1.disk && r.1.disk[q] == st.disk[q]
    ensures var r, pattern := MainSpec(st, argv0), st.env[RootVar] + "/*";
      argv0 in st.disk && (pattern in st.globs ==> argv0 !in st.globs[pattern]) ==> argv0 in r.1.disk
  {
    var root, loader, python := st.env[RootVar], st.env[LoaderVar], st.env[PythonVar];
    var s := SetupSpec(st, root);
    SetupFacts(st, root);
    if s.Go? {
      var paths := s.value;
      ConvertLoader(s.st, paths, loader, |paths|);
      ConvertShape(s.st, paths, loader, |paths|);
      var p := ConvertPrefix(s.st, paths, loader, |paths|);
      if p.ok {
        assert p.loaderFd == -1 by {
          assert forall i | 0 <= i < |paths| :: paths[i] in st.globs[root + "/*"];
        }
      }
      ConvertDiskAny(s.st, paths, loader, |paths|);
    }
  }

  /** Whether or not the loop finishes, the disk only loses files, and only listed ones. */
  lemma {:induction false} ConvertDiskAny(st: OsState, paths: seq<string>, loader: string, k: nat)
    requires k <= |paths|
    ensures ConvertPrefix(st, paths, loader, k).st.disk.Keys <= st.disk.Keys
    ensures var d := ConvertPrefix(st, paths, loader, k).st.disk;
      forall q | q in st.disk && q !in paths :: q in d && d[q] == st.disk[q]
    decreases k
  {
    if k > 0 {
      ConvertDiskAny(st, paths, loader, k - 1);
    }
  }

  /** Over distinct paths, the next entry to visit is still where it was on disk. */
  lemma NextOnDisk(st: OsState, paths: seq<string>, loader: string, k: nat)
    requires WellFormed(st) && Distinct(paths) && k < |paths| && paths[k] in st.disk
    requires ConvertPrefix(st, paths, loader, k).ok
    ensures var q := ConvertPrefix(st, paths, loader, k);
      paths[k] in q.st.disk && WellFormed(q.st) && q.st.fdLimit == st.fdLimit
  {
    ConvertTracked(st, paths, loader, k);
    ConvertShape(st, paths, loader, k);
    assert paths[k] !in paths[..k];
  }

  /** An entry still on disk, with heap and descriptors to spare, is converted. */
  lemma SucceedsStep(st: OsState, paths: seq<string>, q: Progress, loader: string)
    requires q.ok && WellFormed(q.st) && |q.fds| < |paths| && paths[|q.fds|] in q.st.disk
    requires q.st.budget >= 3 && q.st.nextFd < q.st.fdLimit
    ensures var p := ConvertStep(q, paths[|q.fds|], loader);
      p.ok && p.st.budget == q.st.budget - 2 && p.st.nextFd == q.st.nextFd + 1
      && p.fds == q.fds + [q.st.nextFd] && q.st.nextFd >= 0
  {
    FileToFdFacts(q.st, paths[|q.fds|]);
  }

  /**
   * With a heap and a descriptor table large enough, every entry present on
   * disk and distinct, the loop converts them all, using one descriptor
   * and two allocations (the `file_to_fd` buffer and the `strdup`) per entry.
   */
  lemma {:induction false} ConvertSucceeds(st: OsState, paths: seq<string>, loader: string, k: nat)
    requires WellFormed(st) && k <= |paths| && Distinct(paths)
    requires forall i | 0 <= i < |paths| :: paths[i] in st.disk
    requires st.budget >= 2 * k + 1 && st.nextFd + k <= st.fdLimit
    ensures var p := ConvertPrefix(st, paths, loader, k);
      p.ok && p.st.budget == st.budget - 2 * k && p.st.nextFd == st.nextFd + k
      && forall i | 0 <= i < k :: p.fds[i] >= 0
    decreases k
  {
    if k > 0 {
      ConvertSucceeds(st, paths, loader, k - 1);
      var q := ConvertPrefix(st, paths, loader, k - 1);
      NextOnDisk(st, paths, loader, k - 1);
      SucceedsStep(st, paths, q, loader);
      var p := ConvertStep(q, paths[k - 1], loader);
      assert ConvertPrefix(st, paths, loader, k) == p;
      forall i | 0 <= i < k
        ensures p.fds[i] >= 0
      {
        if i < k - 1 {
          assert p.fds[i] == q.fds[i];
        }
      }
    }
  }

  /**
   * Main gets to exec when the environment names a root whose sane listing
   * holds the loader, every entry is on disk, the interpreter is on disk
   * and neither listed nor the loader binary, and the heap (seven allocations
   * plus three per entry) and the descriptor table suffice.
   */
  lemma MainReachesExec(st: OsState, argv0: string)
    requires WellFormed(st)
    requires RootVar in st.env && LoaderVar in st.env && PythonVar in st.env
    requires var root, loader := st.env[RootVar], st.env[LoaderVar];
      root + "/*" in st.globs && SaneListing(root, st.globs[root + "/*"])
      && st.globs[root + "/*"] != [] && root + "/" + loader in st.globs[root + "/*"]
      && (forall q | q in st.globs[root + "/*"] :: q in st.disk)
      && st.budget >= 7 + 3 * |st.globs[root + "/*"]|
      && st.nextFd + |st.globs[root + "/*"]| <= st.fdLimit
    requires var python := st.env[PythonVar];
      python in st.disk && python != argv0 && python !in st.globs[st.env[RootVar] + "/*"]
    ensures MainSpec(st, argv0).0.Exec?
  {
    var root, loader, python := st.env[RootVar], st.env[LoaderVar], st.env[PythonVar];
    var s := SetupSpec(st, root);
    var paths := st.globs[root + "/*"];
    assert s.Go? && s.value == paths && WellFormed(s.st) && s.st.disk == st.disk
      && s.st.budget >= 2 * |paths| + 3 && s.st.nextFd + |paths| <= s.st.fdLimit
    by {
      SetupFacts(st, root);
    }
    var p := ConvertPrefix(s.st, paths, loader, |paths|);
    assert p.ok && p.loaderFd != -1 && p.st.budget >= 3 && python in p.st.disk by {
      ConvertSucceeds(s.st, paths, loader, |paths|);
      var i :| 0 <= i < |paths| && paths[i] == root + "/" + loader;
      assert p.loaderFd == p.fds[i] by {
        SaneNames(root, paths);
        assert paths[i][|root| + 1..] == loader;
        ConvertLoader(s.st, paths, loader, |paths|);
      }
      ConvertAccounted(s.st, paths, loader);
    }
    var pub := PublishSpec(p, |paths|);
    assert pub.Go? && pub.st.budget > 0 && pub.st.disk == p.st.disk by {
      PublishGoes(p, |paths|);
    }
    assert LaunchSpec(pub.st, argv0, root, python, p.loaderFd).0.Exec? by {
      LaunchExecs(pub.st, argv0, root, python, p.loaderFd);
    }
    MainThrough(st, argv0);
  }

  /** With the loader found and memory for the index and the environment entry, publishing leaves one allocation to spare and the disk as it was. */
  lemma PublishGoes(p: Progress, count: nat)
    requires |p.names| == |p.fds| && p.loaderFd != -1 && p.st.budget >= 3
    ensures var pub := PublishSpec(p, count);
      pub.Go? && pub.st.budget > 0 && pub.st.disk == p.st.disk
  {
  }

  /** With memory left for the path buffer, the launch execs an interpreter the launch does not remove. */
  lemma LaunchExecs(st: OsState, argv0: string, root: string, python: string, loaderFd: int)
    requires st.budget > 0 && python in st.disk && python != argv0
    ensures LaunchSpec(st, argv0, root, python, loaderFd).0
      == Exec(python, [python, FdIndex.ProcFdPrefix + Decimal(loaderFd)])
  {
  }

  /** Past setup, conversion and publishing, main's outcome is the launch's. */
  lemma MainThrough(st: OsState, argv0: string)
    requires RootVar in st.env && LoaderVar in st.env && PythonVar in st.env
    requires var s := SetupSpec(st, st.env[RootVar]);
      s.Go? && var p := ConvertPrefix(s.st, s.value, st.env[LoaderVar], |s.value|);
      p.ok && PublishSpec(p, |s.value|).Go?
    ensures var s := SetupSpec(st, st.env[RootVar]);
      var p := ConvertPrefix(s.st, s.value, st.env[LoaderVar], |s.value|);
      MainSpec(st, argv0)
        == LaunchSpec(PublishSpec(p, |s.value|).st, argv0, st.env[RootVar], st.env[PythonVar], p.loaderFd)
  {
  }

  // ---------------------------------------------------------------------
  // C buffers
  // ---------------------------------------------------------------------

  /**
   * `sprintf(buf + at, "%s", text)`, and `strcpy`/`strcat` at the current end:
   * the text and its NUL must fit in the buffer. Returns what `sprintf`
   * returns added to `at`, the position of the new NUL.
   */
  method Sprintf(buf: array<char>, at: nat, text: string) returns (end: nat)
    requires at + |text| < buf.Length
    modifies buf
    ensures end == at + |text|
    ensures buf[..end] == old(buf[..at]) + text && buf[end] == '\0'
    ensures buf[..end + 1] == old(buf[..at]) + text + "\0"
    ensures buf[end + 1..] == old(buf[end + 1..])
  {
    var i := 0;
    while i < |text|
      invariant 0 <= i <= |text|
      invariant buf[..at] == old(buf[..at]) && buf[at..at + i] == text[..i]
      invariant buf[at + |text|..] == old(buf[at + |text|..])
    {
      buf[at + i] := text[i];
      i := i + 1;
    }
    end := at + |text|;
    buf[end] := '\0';
    assert buf[..end] == buf[..at] + buf[at..end];
    assert buf[..end + 1] == buf[..end] + [buf[end]];
  }

  /** `strlen`: the number of bytes before the first NUL, which the buffer must contain. */
  method Strlen(buf: array<byte>) returns (n: nat)
    requires exists i | 0 <= i < buf.Length :: buf[i] == 0
    ensures n < buf.Length && buf[n] == 0
    ensures buf[..n] == UpToNul(buf[..])
  {
    n := 0;
    while buf[n] != 0
      invariant n < buf.Length
      invariant forall j | 0 <= j < n :: buf[j] != 0
      invariant exists i | n <= i < buf.Length :: buf[i] == 0
      decreases buf.Length - n
    {
      n := n + 1;
    }
    UpToNulAt(buf[..], n);
  }

  /** Iteration `i` of `count` of the serialisation loop (main.c:182-185): the member and, unless last, a comma. */
  method WriteMember(json: array<char>, at: nat, name: string, fd: int, i: nat, count: nat) returns (end: nat)
    requires at + |FdIndex.Piece(name, fd, i, count)| < json.Length
    modifies json
    ensures end == at + |FdIndex.Piece(name, fd, i, count)|
    ensures json[..end] == old(json[..at]) + FdIndex.Piece(name, fd, i, count)
  {
    end := Sprintf(json, at, "\"" + name + "\":" + Decimal(fd));
    if i < count - 1 {
      end := Sprintf(json, end, ",");
    }
  }

  /** Joining a prefix of the pieces gives a prefix of the joined text. */
  lemma {:induction false} ConcatPrefix(ps: seq<string>, k: nat)
    requires k <= |ps|
    ensures |Concat(ps[..k])| <= |Concat(ps)|
    decreases |ps| - k
  {
    if k < |ps| {
      ConcatPrefix(ps, k + 1);
      FdIndex.ConcatSnoc(ps, k);
      assert ps[..|ps|] == ps;
    } else {
      assert ps[..k] == ps;
    }
  }

  /** Joining one more piece appends the next entry's member, and stays within the whole index. */
  lemma PieceStep(names: seq<string>, fds: seq<int>, i: nat)
    requires |names| == |fds| && i < |names|
    ensures var ps := FdIndex.Pieces(names, fds);
      Concat(ps[..i + 1]) == Concat(ps[..i]) + FdIndex.Piece(names[i], fds[i], i, |names|)
      && |Concat(ps[..i + 1])| <= |Concat(ps)|
  {
    var ps := FdIndex.Pieces(names, fds);
    FdIndex.ConcatSnoc(ps, i);
    ConcatPrefix(ps, i + 1);
  }

  lemma AppendedAfterBrace(before: string, after: string, done: string, piece: string)
    requires before == "{" + done && after == before + piece
    ensures after == "{" + (done + piece)
  {
  }

  /** The state after `i` entries: the brace and the first `i` pieces, with room left for the closing brace and NUL. */
  ghost predicate MembersWritten(json: array<char>, ps: seq<string>, i: nat, ptr: nat)
    reads json
  {
    i <= |ps| && ptr == 1 + |Concat(ps[..i])| && ptr + 2 <= json.Length && json[..ptr] == "{" + Concat(ps[..i])
  }

  /** One iteration of the loop over the entries. */
  method WriteNext(json: array<char>, names: array<string>, fds: array<int>, ghost ps: seq<string>, i: nat, ptr: nat)
    returns (next: nat)
    requires names.Length == fds.Length && i < names.Length && ps == FdIndex.Pieces(names[..], fds[..])
    requires json.Length == |Concat(ps)| + 3 && MembersWritten(json, ps, i, ptr)
    modifies json
    ensures MembersWritten(json, ps, i + 1, next)
  {
    ghost var done := Concat(ps[..i]);
    ghost var piece := FdIndex.Piece(names[i], fds[i], i, names.Length);
    PieceStep(names[..], fds[..], i);
    ghost var before := json[..ptr];
    next := WriteMember(json, ptr, names[i], fds[i], i, names.Length);
    AppendedAfterBrace(before, json[..next], done, piece);
  }

  /** The loop over the entries (main.c:181-186), after the opening brace. */
  method WriteMembers(json: array<char>, names: array<string>, fds: array<int>) returns (ptr: nat)
    requires names.Length == fds.Length
    requires json.Length == |Concat(FdIndex.Pieces(names[..], fds[..]))| + 3 && json[..1] == "{"
    modifies json
    ensures ptr == json.Length - 2
    ensures json[..ptr] == "{" + Concat(FdIndex.Pieces(names[..], fds[..]))
  {
    ghost var ps := FdIndex.Pieces(names[..], fds[..]);
    ptr := 1;
    var i := 0;
    assert ps[..0] == [];
    while i < names.Length
      invariant 0 <= i <= names.Length
      invariant MembersWritten(json, ps, i, ptr)
    {
      ptr := WriteNext(json, names, fds, ps, i, ptr);
      i := i + 1;
    }
    assert ps[..names.Length] == ps;
  }

  /**
   * The serialisation (main.c:179-187) into a buffer of `json_bytes` bytes:
   * it fills the buffer exactly with the index and its NUL.
   */
  method WriteIndex(json: array<char>, names: array<string>, fds: array<int>)
    requires names.Length == fds.Length
    requires json.Length == FdIndex.JsonBytes(names[..], fds[..], names.Length)
    modifies json
    ensures json[..] == FdIndex.Serialize(names[..], fds[..]) + "\0"
  {
    FdIndex.JsonBytesExact(names[..], fds[..], names.Length);
    FdIndex.JsonBytesTotal(names[..], fds[..]);
    assert FdIndex.Pieces(names[..], fds[..])[..names.Length] == FdIndex.Pieces(names[..], fds[..]);
    var ptr := Sprintf(json, 0, "{");
    ptr := WriteMembers(json, names, fds);
    ptr := Sprintf(json, ptr, "}");
    assert json[..] == json[..ptr + 1];
  }

  // ---------------------------------------------------------------------
  // The operating system as main.c sees it
  // ---------------------------------------------------------------------

  class Os {
    var env: map<string, string>
    var disk: map<string, seq<byte>>
    var dirs: set<string>
    var globs: map<string, seq<string>>
    var memfds: map<int, seq<byte>>
    var nextFd: int
    var fdLimit: int
    var budget: nat
    var live: int

    function State(): OsState
      reads this
    {
      OsState(env, disk, dirs, globs, memfds, nextFd, fdLimit, budget, live)
    }

    constructor (st: OsState)
      ensures State() == st
    {
      env, disk, dirs, globs, memfds := st.env, st.disk, st.dirs, st.globs, st.memfds;
      nextFd, fdLimit, budget, live := st.nextFd, st.fdLimit, st.budget, st.live;
    }

    /** `malloc`/`strdup`: fails exactly when the heap has no room left. */
    method Malloc() returns (ok: bool)
      modifies this
      ensures ok <==> old(budget) > 0
      ensures State() == if ok then Granted(old(State())) else old(State())
    {
      if budget == 0 {
        return false;
      }
      budget, live := budget - 1, live + 1;
      return true;
    }

    /** `n` calls of `free`. */
    method Free(n: nat)
      modifies this
      ensures State() == Freed(old(State()), n)
    {
      live := live - n;
    }

    /** `path_join(dir, filename)` (main.c:30-40): `dir/filename` in a buffer of exactly its size, or NULL. */
    method PathJoin(dir: string, filename: string) returns (r: array?<char>)
      modifies this
      ensures r == null <==> old(budget) == 0
      ensures State() == if r == null then old(State()) else Granted(old(State()))
      ensures r != null ==> fresh(r) && r[..] == dir + "/" + filename + "\0"
    {
      var ok := Malloc();
      if !ok {
        return null;
      }
      r := new char[|dir| + |filename| + 2];
      var end := Sprintf(r, 0, dir);
      end := Sprintf(r, end, "/");
      end := Sprintf(r, end, filename);
      assert r[..] == r[..end] + r[end..];
      assert r[..end] == r[..|dir|] + r[|dir|..|dir| + 1] + r[|dir| + 1..end];
    }

    /** `read_file(path)` (main.c:42-63): the whole file and a NUL, or NULL. */
    method ReadFile(path: string) returns (buf: array?<byte>)
      modifies this
      ensures State() == ReadFileSpec(old(State()), path).1
      ensures buf == null <==> ReadFileSpec(old(State()), path).0.None?
      ensures buf != null ==> fresh(buf) && buf[..] == old(disk[path]) + [0]
    {
      if path !in disk {
        return null;
      }
      var content := disk[path];
      var ok := Malloc();
      if !ok {
        return null;
      }
      buf := new byte[|content| + 1];
      var i := 0;
      while i < |content|
        invariant 0 <= i <= |content|
        invariant buf[..i] == content[..i]
        invariant State() == Granted(old(State()))
      {
        buf[i] := content[i];
        i := i + 1;
      }
      buf[|content|] := 0;
      assert buf[..] == buf[..|content|] + [buf[|content|]];
    }

    /** `file_to_fd(path)` (main.c:102-118). */
    method FileToFd(path: string) returns (fd: int)
      modifies this
      ensures (fd, State()) == FileToFdSpec(old(State()), path)
    {
      var buffer := ReadFile(path);
      if buffer == null {
        return -1;
      }
      if nextFd >= fdLimit {
        Free(1);
        return -1;
      }
      fd := nextFd;
      nextFd := nextFd + 1;
      assert buffer[buffer.Length - 1] == 0;
      var n := Strlen(buffer);
      memfds := memfds[fd := buffer[..n]];
      Free(1);
      disk := disk - {path};
      assert buffer[..] == old(disk[path]) + [0];
      UpToNulPadded(old(disk[path]));
    }

    /**
     * `ls(pattern)` as main.c writes it (main.c:70-100): the slot after the
     * last match is allocated but never written.
     */
    method LsAsWritten(pattern: string) returns (files: array?<CPtr>, count: nat)
      modifies this
      ensures State() == LsSpec(old(State()), pattern).1
      ensures files == null <==> LsSpec(old(State()), pattern).0.None?
      ensures files == null ==> count == 0
      ensures files != null ==>
        fresh(files) && count == |LsSpec(old(State()), pattern).0.value|
        && files[..] == Slots(LsSpec(old(State()), pattern).0.value, Garbage)
    {
      if pattern !in globs || globs[pattern] == [] {
        return null, 0;
      }
      var matches := globs[pattern];
      var ok := Malloc();
      if !ok {
        return null, 0;
      }
      files := new CPtr[|matches| + 1](_ => Garbage);
      var i := 0;
      while i < |matches|
        invariant 0 <= i <= |matches|
        invariant forall j | 0 <= j < i :: files[j] == Str(matches[j])
        invariant forall j | i <= j < files.Length :: files[j] == Garbage
        invariant old(budget) >= 1 + i
        invariant State() == old(State()).(budget := old(budget) - 1 - i, live := old(live) + 1 + i)
      {
        ok := Malloc();
        if !ok {
          Free(i + 1);
          return null, 0;
        }
        files[i] := Str(matches[i]);
        i := i + 1;
      }
      count := |matches|;
      assert files[..] == Slots(matches, Garbage);
    }

    /** `ls(pattern)` with the sentinel stored: the listing is NULL-terminated, as main's loop expects. */
    method Ls(pattern: string) returns (files: array?<CPtr>, count: nat)
      modifies this
      ensures State() == LsSpec(old(State()), pattern).1
      ensures files == null <==> LsSpec(old(State()), pattern).0.None?
      ensures files == null ==> count == 0
      ensures files != null ==>
        fresh(files) && count == |LsSpec(old(State()), pattern).0.value|
        && files[..] == Slots(LsSpec(old(State()), pattern).0.value, Null)
    {
      files, count := LsAsWritten(pattern);
      if files != null {
        files[count] := Null;
        assert files[..] == Slots(LsSpec(old(State()), pattern).0.value, Null);
      }
    }

    /** The loop's state after `i` entries: the conversion so far, recorded in the arrays and the running `json_bytes`. */
    ghost predicate Converted(st0: OsState, paths: seq<string>, loader: string, i: nat,
                              names: array<string>, fds: array<int>, loaderFd: int, jsonBytes: int)
      reads this, names, fds
    {
      i <= |paths| && names.Length == |paths| && fds.Length == |paths|
      && var p := ConvertPrefix(st0, paths, loader, i);
         p.ok && State() == p.st && names[..i] == p.names && fds[..i] == p.fds && loaderFd == p.loaderFd
         && jsonBytes == FdIndex.JsonBytes(names[..], fds[..], i)
    }

    /** One iteration of the conversion loop (main.c:153-165), on entry `i` of `count`. */
    method ConvertNext(ghost st0: OsState, ghost paths: seq<string>, path: string, i: nat, count: nat,
                       names: array<string>, fds: array<int>, loader: string, jsonBytes0: int, loaderFd0: int)
      returns (ok: bool, jsonBytes: int, loaderFd: int)
      requires i < |paths| == count && path == paths[i]
      requires Converted(st0, paths, loader, i, names, fds, loaderFd0, jsonBytes0)
      modifies this, names, fds
      ensures ok ==> Converted(st0, paths, loader, i + 1, names, fds, loaderFd, jsonBytes)
      ensures !ok ==> var p := ConvertPrefix(st0, paths, loader, count); !p.ok && State() == p.st
    {
      ghost var q := ConvertPrefix(st0, paths, loader, i);
      ghost var names0, fds0 := names[..], fds[..];
      assert ConvertPrefix(st0, paths, loader, i + 1) == ConvertStep(q, path, loader);
      var fd := FileToFd(path);
      var copied := Malloc();
      if !copied {
        ConvertStuck(st0, paths, loader, i + 1, count);
        return false, jsonBytes0, loaderFd0;
      }
      var name := Basename(path);
      jsonBytes, loaderFd := RecordEntry(names, fds, i, count, name, fd, loader, jsonBytes0, loaderFd0);
      ok := true;
      assert names[..i + 1] == q.names + [name] && fds[..i + 1] == q.fds + [fd] by {
        assert names[..i + 1] == names0[..i] + [name];
        assert fds[..i + 1] == fds0[..i] + [fd];
      }
      assert jsonBytes == FdIndex.JsonBytes(names[..], fds[..], i + 1) by {
        assert names[..i] == names0[..i] && fds[..i] == fds0[..i];
        FdIndex.JsonBytesStep(names0, fds0, names[..], fds[..], i);
      }
    }

    /**
     * The bookkeeping for a converted entry (main.c:157-165): the basename
     * and descriptor stored in slot `i`, `json_bytes` grown by the entry's
     * cost, the loader's descriptor noted when the name matches.
     */
    method RecordEntry(names: array<string>, fds: array<int>, i: nat, count: nat, name: string, fd: int,
                       loader: string, jsonBytes0: int, loaderFd0: int) returns (jsonBytes: int, loaderFd: int)
      requires i < names.Length && i < fds.Length
      modifies names, fds
      ensures names[..] == old(names[..])[i := name] && fds[..] == old(fds[..])[i := fd]
      ensures jsonBytes == jsonBytes0 + FdIndex.EntryCost(name, fd, i, count)
      ensures loaderFd == if name == loader then fd else loaderFd0
    {
      jsonBytes, loaderFd := jsonBytes0, loaderFd0;
      names[i] := name;
      jsonBytes := jsonBytes + |name| + 3;
      fds[i] := fd;
      jsonBytes := jsonBytes + |Decimal(fd)|;
      if i < count - 1 {
        jsonBytes := jsonBytes + 1;
      }
      if name == loader {
        loaderFd := fd;
      }
    }

    /**
     * The conversion loop (main.c:152-166): every listed file is moved to a
     * descriptor, its basename copied, `json_bytes` counted and the loader's
     * descriptor noted. `ok` is false when a `strdup` failed, after which
     * main.c calls `strlen(NULL)`.
     */
    method Convert(files: array<CPtr>, ghost paths: seq<string>, count: nat, names: array<string>, fds: array<int>, loader: string)
      returns (jsonBytes: int, loaderFd: int, ok: bool)
      requires files[..] == Slots(paths, Null) && count == |paths|
      requires names.Length == count && fds.Length == count
      modifies this, names, fds
      ensures var p := ConvertPrefix(old(State()), paths, loader, count);
        ok == p.ok && State() == p.st
        && (ok ==> names[..] == p.names && fds[..] == p.fds && loaderFd == p.loaderFd
                   && jsonBytes == FdIndex.JsonBytes(p.names, p.fds, count))
    {
      jsonBytes, loaderFd := 3, -1;
      var i := 0;
      while files[i] != Null
        invariant 0 <= i <= count
        invariant Converted(old(State()), paths, loader, i, names, fds, loaderFd, jsonBytes)
        decreases count - i
      {
        var next;
        next, jsonBytes, loaderFd := ConvertNext(old(State()), paths, files[i].text, i, count, names, fds, loader, jsonBytes, loaderFd);
        if !next {
          return jsonBytes, loaderFd, false;
        }
        i := i + 1;
      }
      assert names[..] == names[..i] && fds[..] == fds[..i];
      ok := true;
    }

    /** The buffer for `/proc/self/fd/N`, sized for the text and its NUL. */
    method ProcPath(fd: int) returns (r: array?<char>)
      modifies this
      ensures r == null <==> old(budget) == 0
      ensures State() == if r == null then old(State()) else Granted(old(State()))
      ensures r != null ==> fresh(r) && r[..] == FdIndex.ProcFdPrefix + Decimal(fd) + "\0"
    {
      var ok := Malloc();
      if !ok {
        return null;
      }
      r := new char[ProcPathAlloc(fd)];
      var end := Sprintf(r, 0, FdIndex.ProcFdPrefix + Decimal(fd));
      assert r[..] == r[..end] + [r[end]];
    }

    /** main.c:144-146, as `ListSpec` describes it; on going on, the NULL-terminated listing. */
    method List(root: string) returns (stage: Stage<seq<string>>, files: array?<CPtr>, count: nat)
      modifies this
      ensures stage == ListSpec(old(State()), root) && State() == stage.st
      ensures stage.Go? ==> files != null && files[..] == Slots(stage.value, Null) && count == |stage.value|
    {
      var pattern := PathJoin(root, "*");
      if pattern == null {
        return Stop(Undefined("glob on a NULL pattern"), State()), null, 0;
      }
      assert pattern[..pattern.Length - 1] == root + "/*";
      files, count := Ls(pattern[..pattern.Length - 1]);
      Free(1);
      if files == null {
        return Stop(Undefined("dereference of the NULL listing"), State()), null, 0;
      }
      ghost var paths := LsSpec(Granted(old(State())), root + "/*").0.value;
      var slots := files[..];
      var listed := seq(count, j requires 0 <= j < count && j < |slots| && slots[j].Str? => slots[j].text);
      assert listed == paths by {
        assert slots == Slots(paths, Null);
      }
      stage := Go(listed, State());
    }

    /** main.c:144-150, as `SetupSpec` describes it; on going on, the listing and the two arrays. */
    method Setup(root: string) returns (stage: Stage<seq<string>>, files: array?<CPtr>, names: array?<string>, fds: array?<int>)
      modifies this
      ensures stage == SetupSpec(old(State()), root) && State() == stage.st
      ensures stage.Go? ==>
        files != null && names != null && fds != null && fresh(names) && fresh(fds)
        && files[..] == Slots(stage.value, Null) && names.Length == fds.Length == |stage.value|
    {
      var listing, count;
      listing, files, count := List(root);
      if listing.Stop? {
        return listing, null, null, null;
      }
      var ok := Malloc();
      if !ok {
        return Stop(Undefined("write through a NULL names array"), State()), null, null, null;
      }
      names := new string[count];
      ok := Malloc();
      if !ok {
        return Stop(Undefined("write through a NULL fds array"), State()), null, null, null;
      }
      fds := new int[count];
      stage := Go(listing.value, State());
    }

    /** main.c:168-201, as `PublishSpec` describes it; `stop` when main returns 1. */
    method Publish(names: array<string>, fds: array<int>, jsonBytes: int, loaderFd: int, ghost p: Progress) returns (stop: bool)
      requires names.Length == fds.Length && names[..] == p.names && fds[..] == p.fds && loaderFd == p.loaderFd
      requires jsonBytes == FdIndex.JsonBytes(p.names, p.fds, names.Length) && State() == p.st
      modifies this
      ensures stop <==> PublishSpec(p, names.Length).Stop?
      ensures State() == PublishSpec(p, names.Length).st
    {
      if loaderFd == -1 {
        return true;
      }
      var ok := Malloc();
      if !ok {
        return true;
      }
      var json := new char[jsonBytes];
      WriteIndex(json, names, fds);
      ghost var text := FdIndex.Serialize(p.names, p.fds);
      assert json[..jsonBytes - 1] == text by {
        assert json[..] == text + "\0";
        assert json[..jsonBytes - 1] == json[..][..jsonBytes - 1];
      }
      Free(names.Length + 2);
      ghost var st3 := State();
      assert st3 == Freed(Granted(p.st), names.Length + 2);
      ok := Malloc();
      if !ok {
        return true;
      }
      env := env[FdIndex.IndexVariable := json[..jsonBytes - 1]];
      assert State() == Granted(st3).(env := Granted(st3).env[FdIndex.IndexVariable := text]);
      Free(1);
      return false;
    }

    /** main.c:203-217, as `LaunchSpec` describes it. */
    method Launch(argv0: string, root: string, python: string, loaderFd: int) returns (outcome: Outcome)
      modifies this
      ensures (outcome, State()) == LaunchSpec(old(State()), argv0, root, python, loaderFd)
    {
      var procPath := ProcPath(loaderFd);
      if procPath == null {
        return Undefined("sprintf through a NULL path buffer");
      }
      disk := disk - {argv0};
      dirs := Rmdir(State(), root);
      if python in disk {
        return Exec(python, [python, procPath[..procPath.Length - 1]]);
      }
      return Exit(0);
    }

    /** `main` (main.c:120-218), with `argv[0]` the loader's own path. */
    method Boot(argv0: string) returns (outcome: Outcome)
      modifies this
      ensures (outcome, State()) == MainSpec(old(State()), argv0)
    {
      if RootVar !in env || LoaderVar !in env || PythonVar !in env {
        return Exit(1);
      }
      var root, loader, python := env[RootVar], env[LoaderVar], env[PythonVar];
      var stage, files, names, fds := Setup(root);
      if stage.Stop? {
        return stage.outcome;
      }
      ghost var st2 := State();
      var jsonBytes, loaderFd, converted := Convert(files, stage.value, names.Length, names, fds, loader);
      ghost var p := ConvertPrefix(st2, stage.value, loader, names.Length);
      if !converted {
        return Undefined("strlen of a NULL basename copy");
      }
      var stop := Publish(names, fds, jsonBytes, loaderFd, p);
      if stop {
        return Exit(1);
      }
      outcome := Launch(argv0, root, python, loaderFd);
    }
  }

  /** The bytes before the first NUL are exactly those `strlen` counts up to it. */
  lemma {:induction false} UpToNulAt(b: seq<byte>, n: nat)
    requires n < |b| && b[n] == 0
    requires forall j | 0 <= j < n :: b[j] != 0
    ensures UpToNul(b) == b[..n]
    decreases n
  {
    if n > 0 {
      UpToNulAt(b[1..], n - 1);
      assert b[..n] == [b[0]] + b[1..][..n - 1];
    }
  }

  /** A terminating NUL after the content does not change what `strlen` sees. */
  lemma {:induction false} UpToNulPadded(b: seq<byte>)
    ensures UpToNul(b + [0]) == UpToNul(b)
    decreases |b|
  {
    if b != [] && b[0] != 0 {
      assert (b + [0])[1..] == b[1..] + [0];
      UpToNulPadded(b[1..]);
    }
  }
}
