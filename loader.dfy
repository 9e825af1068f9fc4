/**
 * The import hook of the successor process (immutable/loader.py): a finder
 * that resolves module names through the descriptor index, and a loader that
 * reads a module's source back from its memory file.
 *
 * A descriptor is an `OpenFile`, the open file description it refers to:
 * the bytes of the memory file and the current offset, which `lseek` and
 * `read` move.
 */
module Loader {
  import opened Wrappers
  import opened Text
  import opened Exceptions
  import FdIndex

  /** The variable immutable/loader.py:21 reads the index from. */
  const ModulesVariable := "POCKET_ASI_MODULES"

  /** The chunk size of `os.read` in `get_data` (immutable/loader.py:39). */
  const ChunkSize := 4096

  /**
   * `MODULES = json.loads(os.environ['POCKET_ASI_MODULES'])` as written: a
   * missing variable raises `KeyError`, an unreadable one `JSONDecodeError`.
   */
  function ModulesAsWritten(env: map<string, string>): (r: Result<map<string, int>, PyError>)
    ensures ModulesVariable !in env <==> r == Err(KeyError(ModulesVariable))
    ensures r.Ok? <==> ModulesVariable in env && FdIndex.ParseIndex(env[ModulesVariable]).Some?
  {
    if ModulesVariable !in env then Err(KeyError(ModulesVariable))
    else match FdIndex.ParseIndex(env[ModulesVariable])
      case None => Err(JsonDecodeError)
      case Some(m) => Ok(m)
  }

  /**
   * The bootstrap loader exports its index only under `POCKET_ASI_FILES`, so
   * in a successor started from an environment without `POCKET_ASI_MODULES`
   * the loader fails at import with `KeyError`, whatever was converted.
   */
  lemma ModulesMissingAfterBootstrap(env: map<string, string>, names: seq<string>, fds: seq<int>)
    requires ModulesVariable !in env && |names| == |fds|
    ensures var env' := env[FdIndex.IndexVariable := FdIndex.Serialize(names, fds)];
      ModulesAsWritten(env') == Err(KeyError(ModulesVariable))
  {
    assert FdIndex.IndexVariable[13] != ModulesVariable[13];
  }

  /** What `importlib.machinery.ModuleSpec(fullname, FDLoader(fd), origin=...)` records. */
  datatype ModuleSpec = ModuleSpec(name: string, fd: int, origin: string)

  /** `get_filename` (immutable/loader.py:45-48): `fd:/N` for the loader's descriptor, whatever the module name. */
  function Filename(fd: int): (r: string)
    ensures StartsWith(r, "fd:/") && ParseInt(r[4..]) == Some(fd)
  {
    DecimalRoundTrip(fd);
    "fd:/" + Decimal(fd)
  }

  /** Two descriptors never share a file name. */
  lemma FilenameInjective(fd: int, fd': int)
    requires Filename(fd) == Filename(fd')
    ensures fd == fd'
  {
    assert Filename(fd)[4..] == Filename(fd')[4..];
  }

  /**
   * `FDFinder.find_spec` (immutable/loader.py:54-65): a spec whose loader
   * reads the module's descriptor and whose origin is that descriptor's file
   * name, for a name the index holds; `None` for any other name, which
   * passes the import on to the next finder.
   */
  function FindSpec(modules: map<string, int>, fullname: string): (r: Option<ModuleSpec>)
    ensures r.Some? <==> fullname in modules
    ensures r.Some? ==> r.value.name == fullname && r.value.fd == modules[fullname]
    ensures r.Some? ==> r.value.origin == Filename(r.value.fd)
  {
    if fullname in modules then
      var fd := modules[fullname];
      Some(ModuleSpec(fullname, fd, Filename(fd)))
    else None
  }

  /**
   * Reading the index from the variable main.c exports (the correction of
   * `ModulesAsWritten`), every listed (distinct, plainly named)
   * module gets a spec on its own descriptor, and every other name none.
   */
  lemma FindSpecAfterBootstrap(env: map<string, string>, names: seq<string>, fds: seq<int>, fullname: string)
    requires |names| == |fds|
    requires forall i | 0 <= i < |names| :: FdIndex.PlainName(names[i])
    requires forall i, j | 0 <= i < j < |names| :: names[i] != names[j]
    ensures var env' := env[FdIndex.IndexVariable := FdIndex.Serialize(names, fds)];
      FdIndex.ImportIndex(env').Ok?
      && (forall i | 0 <= i < |names| && names[i] == fullname ::
            FindSpec(FdIndex.ImportIndex(env').value, fullname) == Some(ModuleSpec(fullname, fds[i], Filename(fds[i]))))
      && ((forall i | 0 <= i < |names| :: names[i] != fullname) ==> FindSpec(FdIndex.ImportIndex(env').value, fullname) == None)
  {
    FdIndex.IndexRoundTrip(names, fds);
    FdIndex.EntriesKeys(map[], names, fds);
    forall i | 0 <= i < |names| && names[i] == fullname
      ensures FdIndex.ImportIndex(env[FdIndex.IndexVariable := FdIndex.Serialize(names, fds)]).value[fullname] == fds[i]
    {
      FdIndex.EntriesLookup(map[], names, fds, i);
    }
  }

  /** An open file description: the file's bytes and the offset the next `read` starts at. */
  class OpenFile {
    var content: seq<byte>
    var offset: nat

    constructor (content: seq<byte>, offset: nat)
      ensures this.content == content && this.offset == offset
    {
      this.content := content;
      this.offset := offset;
    }

    /** `os.lseek(fd, 0, os.SEEK_SET)`. */
    method Rewind()
      modifies this
      ensures content == old(content) && offset == 0
    {
      offset := 0;
    }

    /** `os.read(fd, n)`: up to `n` bytes from the offset, which moves past them; empty at end of file. */
    method Read(n: nat) returns (chunk: seq<byte>)
      requires n > 0
      modifies this
      ensures content == old(content)
      ensures old(offset) >= |content| ==> chunk == [] && offset == old(offset)
      ensures old(offset) < |content| ==> old(offset) < offset <= |content|
      ensures old(offset) < |content| ==>
        0 < |chunk| <= n && offset == old(offset) + |chunk| && chunk == content[old(offset)..offset]
    {
      if offset >= |content| {
        return [];
      }
      var end := if offset + n <= |content| then offset + n else |content|;
      chunk := content[offset..end];
      offset := end;
    }
  }

  /** `FDLoader` (immutable/loader.py:24-48): a source loader bound to one descriptor. */
  class FdLoader {
    const fd: int
    const file: OpenFile

    constructor (fd: int, file: OpenFile)
      ensures this.fd == fd && this.file == file
    {
      this.fd := fd;
      this.file := file;
    }

    /**
     * `get_data` (immutable/loader.py:33-43): rewind, then append 4096-byte
     * chunks until a read comes back empty. The result is the whole file,
     * whatever the offset was before and whatever `path` names.
     */
    method GetData(path: string) returns (data: seq<byte>)
      modifies file
      ensures data == file.content && file.content == old(file.content)
      ensures file.offset == |file.content|
    {
      file.Rewind();
      data := [];
      while true
        invariant file.content == old(file.content)
        invariant file.offset <= |file.content| && data == file.content[..file.offset]
        decreases |file.content| - file.offset
      {
        var chunk := file.Read(ChunkSize);
        if chunk == [] {
          break;
        }
        assert data + chunk == file.content[..file.offset];
        data := data + chunk;
      }
    }

    /** `get_filename` (immutable/loader.py:45-48). */
    method GetFilename(fullname: string) returns (name: string)
      ensures name == Filename(fd)
    {
      name := "fd:/" + Decimal(fd);
    }
  }
}
