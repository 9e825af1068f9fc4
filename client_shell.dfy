/**
 * The client's shell harness (client/shell.py): the verdict `_lex` passes on
 * a command before it reaches bash, the prompt parser, the draining of the
 * two output queues, file commands against a filesystem, and the dispatch
 * in `execute`.
 *
 * What happens inside bash is outside the model: the parser (bashlex) is a
 * parameter that yields either the command words or the error it raised,
 * the prompt text the shell prints and the lines its reader threads queue
 * are inputs, and the clock is the parameter `now`.
 */
module ClientShell {
  import opened Wrappers
  import opened Text
  import opened Exceptions
  import opened Output
  import Prompts

  /** `LlamaClientConfig`: only the optional temperature. */
  datatype Config = Config(temperature: Option<real>)

  /** `BaseResult`: what `_get_config` found next to the result. */
  datatype Base = Base(config: Option<Config>, system: Option<string>, goal: Option<string>)

  datatype UserType = User | Root

  /** `Prompt` (client/typedefs.py:9-17). */
  datatype Prompt = Prompt(prompt: string, exitCode: nat, user: string, host: string, cwd: string, usertype: UserType)

  /** `AnyCommand`, plus any other object `execute` can be handed. */
  datatype Command =
    | ShellCommand(command: string, comment: Option<string>)
    | FileReadCommand(file: string, comment: Option<string>)
    | FileWriteCommand(file: string, content: string, comment: Option<string>)
    | Unsupported(kind: string)

  /** `AnyResult` (client/typedefs.py:65-93). */
  datatype AnyResult =
    | ShellResult(cmd: Command, prompt: Prompt, stdout: seq<OutputLine>, stderr: seq<OutputLine>, exitCode: int, base: Base)
    | FileReadResult(cmd: Command, file: string, content: Option<string>, error: Option<string>, base: Base)
    | FileWriteResult(cmd: Command, file: string, error: Option<string>, written: Option<nat>, base: Base)

  /** `SHELL_INTERACTIVE_COMMANDS` (client/const.py:14-19). */
  const InteractiveCommands: seq<string> := ["vim", "nano", "less", "more"]

  /** `USERTYPES` (client/const.py:26-29) applied to the matched marker. */
  function UserTypeOf(marker: char): UserType {
    if marker == '$' then User else Root
  }

  /** `_dummy_out` (client/shell.py:53-55): one line, stamped now, in bash's error style. */
  function DummyOut(message: string, now: int): (r: seq<OutputLine>)
    ensures |r| == 1 && r[0].time == now
    ensures StartsWith(r[0].text, "/bin/bash: ") && r[0].text[11..] == message
  {
    [OutputLine(now, "/bin/bash: " + message)]
  }

  /**
   * `_parse_prompt` (client/shell.py:211-231): the prompt's fields with the
   * marker mapped to a user type, or `ValueError` when the pattern does not match.
   */
  function ParsePrompt(s: string): (r: Result<Prompt, PyError>)
    ensures r.Err? <==> Prompts.Match(s).None?
    ensures r.Err? ==> r.error == ValueError("Prompt does not match expected format: " + s)
    ensures r.Ok? ==> var f := Prompts.Match(s).value;
      r.value == Prompt(s, f.exitCode, f.user, f.host, f.cwd, UserTypeOf(f.usertype))
  {
    match Prompts.Match(s)
    case None => Err(ValueError("Prompt does not match expected format: " + s))
    case Some(f) => Ok(Prompt(s, f.exitCode, f.user, f.host, f.cwd, UserTypeOf(f.usertype)))
  }

  /**
   * The prompt bash prints for an exit code, user, host and directory reads
   * back as exactly those, with `$` read as a user and `#` as root.
   */
  lemma ParsePromptRoundTrip(f: Prompts.Fields)
    requires Prompts.Unambiguous(f)
    ensures var s := Prompts.Render(f);
      ParsePrompt(s) == Ok(Prompt(s, f.exitCode, f.user, f.host, f.cwd, if f.usertype == '$' then User else Root))
  {
    Prompts.RenderMatches(f);
  }

  /** Index of the first newline in `c` at or after `k`, or `|c|`. */
  function LineEnd(c: string, k: nat): (e: nat)
    requires k <= |c|
    decreases |c| - k
    ensures k <= e <= |c| && (e < |c| ==> c[e] == '\n')
    ensures forall i | k <= i < e :: c[i] != '\n'
  {
    if k == |c| || c[k] == '\n' then k else LineEnd(c, k + 1)
  }

  /**
   * `re.sub(r'^#.*', '', command)`: without MULTILINE `^` only matches at the
   * start, and `.` stops at the first newline, so only a comment on the
   * first line goes.
   */
  function StripLeadingComment(c: string): (r: string)
    ensures |r| <= |c| && r == c[|c| - |r|..]
    ensures (|c| == 0 || c[0] != '#') ==> r == c
    ensures |c| > 0 && c[0] == '#' ==> (r == [] || r[0] == '\n') && forall i | 0 <= i < |c| - |r| :: c[i] != '\n'
  {
    if |c| > 0 && c[0] == '#' then c[LineEnd(c, 0)..] else c
  }

  /** What bashlex makes of a command: its command words, or the exception it raised. */
  datatype Parsed =
    | Words(words: seq<string>)
    | MatchedPairError(message: string)
    | ParsingError(message: string)
    | OtherParsingError(message: string)
    | InternalTypeError
    | Raised(error: PyError)

  /** The outcome of `_lex` before a result is built: run the command, or refuse it with an exit code and a message. */
  datatype Verdict = Run | Refuse(exitCode: int, stderr: string)

  /** The entries of `SHELL_INTERACTIVE_COMMANDS` among the command words. */
  function InteractiveIn(words: seq<string>): (r: seq<string>)
    ensures forall x | x in r :: x in InteractiveCommands && x in words
    ensures forall x | x in InteractiveCommands && x in words :: x in r
  {
    Pick(words, 0)
  }

  function Pick(words: seq<string>, k: nat): (r: seq<string>)
    requires k <= |InteractiveCommands|
    decreases |InteractiveCommands| - k
    ensures forall x | x in r :: x in InteractiveCommands[k..] && x in words
    ensures forall x | x in InteractiveCommands[k..] && x in words :: x in r
  {
    if k == |InteractiveCommands| then []
    else
      var rest := Pick(words, k + 1);
      assert InteractiveCommands[k..] == [InteractiveCommands[k]] + InteractiveCommands[k + 1..];
      if InteractiveCommands[k] in words then [InteractiveCommands[k]] + rest else rest
  }

  /**
   * `_lex` (client/shell.py:184-209) as a decision: a blank or comment-only
   * command is refused with code 0; a parser error is refused with code 2
   * and the parser's message, a `TypeError` with -2; an interactive
   * program with -3; every other exception propagates.
   */
  function LexVerdict(command: string, parsed: Parsed): Result<Verdict, PyError> {
    if IsBlank(StripLeadingComment(command)) then Ok(Refuse(0, ""))
    else match parsed
      case MatchedPairError(m) => Ok(Refuse(2, m))
      case ParsingError(m) => Ok(Refuse(2, m))
      case InternalTypeError => Ok(Refuse(-2, "Internal error"))
      case OtherParsingError(m) => Err(Exceptions.ParsingError(m))
      case Raised(e) => Err(e)
      case Words(ws) =>
        var interactive := Join(InteractiveIn(ws), ", ");
        if interactive != "" then Ok(Refuse(-3, "Not a terminal: " + interactive)) else Ok(Run)
  }

  lemma JoinEmpty(parts: seq<string>, sep: string)
    requires forall i | 0 <= i < |parts| :: parts[i] != ""
    ensures Join(parts, sep) == "" <==> parts == []
  {
    if |parts| >= 2 {
      assert |Join(parts, sep)| >= |parts[0]|;
    }
  }

  /** Blank and comment-only commands never reach the parser: code 0 and nothing on stderr, whatever it would say. */
  lemma LexBlank(command: string, parsed: Parsed)
    requires IsBlank(StripLeadingComment(command))
    ensures LexVerdict(command, parsed) == Ok(Refuse(0, ""))
  {
  }

  /** Only the first line's comment is stripped: a comment followed by a command line is lexed as that command. */
  lemma LexSecondLine()
    ensures LexVerdict("# edit\nvim x", Words(["vim"])) == Ok(Refuse(-3, "Not a terminal: vim"))
  {
    var c := "# edit\nvim x";
    assert !IsBlank(StripLeadingComment(c)) by {
      StripFirstLine();
      assert !IsSpace(StripLeadingComment(c)[1]);
    }
    assert Join(InteractiveIn(["vim"]), ", ") == "vim" by {
      PickVim();
    }
    assert "Not a terminal: " + "vim" == "Not a terminal: vim";
  }

  lemma StripFirstLine()
    ensures StripLeadingComment("# edit\nvim x") == "\nvim x"
  {
    var c := "# edit\nvim x";
    assert LineEnd(c, 0) == 6 by {
      assert c[6] == '\n';
      assert forall i | 0 <= i < 6 :: c[i] != '\n';
    }
  }

  lemma PickVim()
    ensures InteractiveIn(["vim"]) == ["vim"]
  {
    var w := ["vim"];
    assert Pick(w, 4) == [];
    assert Pick(w, 3) == [];
    assert Pick(w, 2) == [];
    assert Pick(w, 1) == [];
  }

  /**
   * A non-blank command the parser reads is refused with -3 exactly when one
   * of its command words is an interactive program, and run otherwise.
   */
  lemma LexInteractive(command: string, words: seq<string>)
    requires !IsBlank(StripLeadingComment(command))
    ensures (exists i | 0 <= i < |words| :: words[i] in InteractiveCommands)
      <==> LexVerdict(command, Words(words)).Ok? && LexVerdict(command, Words(words)).value.Refuse?
    ensures LexVerdict(command, Words(words)).Ok?
    ensures LexVerdict(command, Words(words)).value.Refuse? ==> LexVerdict(command, Words(words)).value.exitCode == -3
  {
    var r := InteractiveIn(words);
    var joined := Join(r, ", ");
    assert joined == "" <==> r == [] by {
      InteractiveNonEmpty(words);
      JoinEmpty(r, ", ");
    }
    InteractiveFound(words);
    assert LexVerdict(command, Words(words))
      == if joined != "" then Ok(Refuse(-3, "Not a terminal: " + joined)) else Ok(Run);
  }

  lemma InteractiveNonEmpty(words: seq<string>)
    ensures forall j | 0 <= j < |InteractiveIn(words)| :: InteractiveIn(words)[j] != ""
  {
    var r := InteractiveIn(words);
    forall j | 0 <= j < |r| ensures r[j] != "" {
      assert r[j] in InteractiveCommands;
    }
  }

  /** Some interactive program is found exactly when one of the words is one. */
  lemma InteractiveFound(words: seq<string>)
    ensures InteractiveIn(words) != [] <==> exists i | 0 <= i < |words| :: words[i] in InteractiveCommands
  {
    var r := InteractiveIn(words);
    if exists i | 0 <= i < |words| :: words[i] in InteractiveCommands {
      var i :| 0 <= i < |words| && words[i] in InteractiveCommands;
      assert words[i] in r;
    }
    if r != [] {
      assert r[0] in r;
      var i :| 0 <= i < |words| && words[i] == r[0];
    }
  }

  /** Parser errors: 2 with the parser's message for the two lexer errors, -2 for a `TypeError`, propagated otherwise. */
  lemma LexErrors(command: string, parsed: Parsed)
    requires !IsBlank(StripLeadingComment(command)) && !parsed.Words?
    ensures parsed.MatchedPairError? || parsed.ParsingError? ==> LexVerdict(command, parsed) == Ok(Refuse(2, parsed.message))
    ensures LexVerdict(command, parsed).Ok? && LexVerdict(command, parsed).value.Refuse? && LexVerdict(command, parsed).value.exitCode == 2
      ==> parsed.MatchedPairError? || parsed.ParsingError?
    ensures parsed.InternalTypeError? <==> LexVerdict(command, parsed) == Ok(Refuse(-2, "Internal error"))
    ensures (parsed.OtherParsingError? || parsed.Raised?) <==> LexVerdict(command, parsed).Err?
  {
  }

  /**
   * `_dummy_result` (client/shell.py:158-182): a shell result for a command
   * that never ran, on the current prompt, with the message (if any) as
   * bash-style stderr. The command's comment is not carried over.
   */
  function DummyResult(command: string, exitCode: int, stderr: string, prompt: Prompt, base: Base, now: int): (r: AnyResult)
    ensures r.ShellResult? && r.cmd == ShellCommand(command, None) && r.exitCode == exitCode && r.stdout == []
    ensures stderr == "" <==> r.stderr == []
    ensures stderr != "" ==> r.stderr == DummyOut(stderr, now)
  {
    ShellResult(ShellCommand(command, None), prompt, [], if stderr == "" then [] else DummyOut(stderr, now), exitCode, base)
  }

  /**
   * `_lex` in full: `None` for a command to run, a dummy result for a
   * refused one (which needs the current prompt), or the exception.
   */
  function Lex(command: string, parsed: Parsed, promptText: string, base: Base, now: int): (r: Result<Option<AnyResult>, PyError>)
    ensures LexVerdict(command, parsed) == Ok(Run) ==> r == Ok(None)
    ensures LexVerdict(command, parsed).Err? ==> r == Err(LexVerdict(command, parsed).error)
    ensures r.Ok? && r.value.Some? ==> var v := LexVerdict(command, parsed).value;
      v.Refuse? && ParsePrompt(promptText).Ok?
      && r.value.value == DummyResult(command, v.exitCode, v.stderr, ParsePrompt(promptText).value, base, now)
  {
    match LexVerdict(command, parsed)
    case Err(e) => Err(e)
    case Ok(Run) => Ok(None)
    case Ok(Refuse(code, message)) =>
      match ParsePrompt(promptText)
      case Err(e) => Err(e)
      case Ok(p) => Ok(Some(DummyResult(command, code, message, p, base, now)))
  }

  /** One filesystem entry as `Path.read_text` / `write_text` meet it. */
  datatype Entry = File(text: string) | Directory | Denied(message: string)

  /** The directory a path names its file in; `""` for a bare name, which is the working directory. */
  function Parent(path: string): (r: string)
    ensures path != [] ==> |r| < |path|
  {
    if path == [] then ""
    else if path[|path| - 1] == '/' then path[..|path| - 1]
    else Parent(path[..|path| - 1])
  }

  /** `str(e)` of the `NotADirectoryError` that opening a path under a regular file raises. */
  function NotADirectory(path: string): string {
    "[Errno 20] Not a directory: '" + path + "'"
  }

  /** The directories a path passes through, innermost first: `dir`, its parent, and so on up to the working directory. */
  function Chain(dir: string): (r: seq<string>)
    ensures dir != "" ==> r != [] && r[0] == dir
    decreases |dir|
  {
    if dir == "" then [] else [dir] + Chain(Parent(dir))
  }

  /**
   * Opening `full` resolves `dir` and the directories above it, outermost
   * first: the message of the first one that is missing
   * (`FileNotFoundError`, reported as `File not found`), a regular file
   * (`NotADirectoryError`, whose text names `full`) or unreadable; `None`
   * when every one is a directory.
   */
  function DirError(files: map<string, Entry>, dir: string, full: string): (r: Option<string>)
    ensures r.None? ==> dir == "" || (dir in files && files[dir].Directory?)
    decreases |dir|
  {
    if dir == "" then None
    else match DirError(files, Parent(dir), full)
      case Some(e) => Some(e)
      case None =>
        if dir !in files then Some("File not found")
        else match files[dir]
          case Directory => None
          case File(_) => Some(NotADirectory(full))
          case Denied(m) => Some(m)
  }

  /** Resolution succeeds exactly when every directory on the way is one. */
  lemma {:induction false} DirErrorNone(files: map<string, Entry>, dir: string, full: string)
    ensures DirError(files, dir, full).None? <==> forall x | x in Chain(dir) :: x in files && files[x].Directory?
    decreases |dir|
  {
    if dir != "" {
      DirErrorNone(files, Parent(dir), full);
      assert Chain(dir) == [dir] + Chain(Parent(dir));
    }
  }

  /**
   * A regular file on the way, with only directories above it, fails the
   * resolution with `NotADirectoryError` naming the path being opened,
   * whatever lies below that file.
   */
  lemma {:induction false} FileOnTheWay(files: map<string, Entry>, dir: string, full: string, k: nat)
    requires k < |Chain(dir)| && Chain(dir)[k] in files && files[Chain(dir)[k]].File?
    requires forall x | x in Chain(Parent(Chain(dir)[k])) :: x in files && files[x].Directory?
    ensures DirError(files, dir, full) == Some(NotADirectory(full))
    decreases |dir|
  {
    assert Chain(dir) == [dir] + Chain(Parent(dir));
    if k == 0 {
      DirErrorNone(files, Parent(dir), full);
    } else {
      FileOnTheWay(files, Parent(dir), full, k - 1);
    }
  }

  /** The directories above `path` as opening it resolves them. */
  function AncestorError(files: map<string, Entry>, path: string): (r: Option<string>)
    ensures r.None? <==> forall x | x in Chain(Parent(path)) :: x in files && files[x].Directory?
    ensures r.None? ==> Parent(path) == "" || (Parent(path) in files && files[Parent(path)].Directory?)
  {
    DirErrorNone(files, Parent(path), path);
    DirError(files, Parent(path), path)
  }

  /** Resolving directories never looks at an entry longer than the innermost one. */
  lemma {:induction false} DirErrorFrame(files: map<string, Entry>, dir: string, full: string, q: string, e: Entry)
    requires |q| > |dir|
    ensures DirError(files[q := e], dir, full) == DirError(files, dir, full)
    decreases |dir|
  {
    if dir != "" {
      DirErrorFrame(files, Parent(dir), full, q, e);
    }
  }

  /** Resolving a path's directories never looks at an entry as long as the path itself. */
  lemma AncestorErrorFrame(files: map<string, Entry>, path: string, q: string, e: Entry)
    requires |q| >= |path|
    ensures AncestorError(files[q := e], path) == AncestorError(files, path)
  {
    if path != "" {
      DirErrorFrame(files, Parent(path), path, q, e);
    }
  }

  /** Reading a path: its text, or the message `_execute_file` reports. */
  function ReadOutcome(files: map<string, Entry>, path: string): (r: Result<string, string>)
    ensures r.Ok? <==> AncestorError(files, path).None? && path in files && files[path].File?
    ensures r.Ok? ==> r.value == files[path].text
    ensures AncestorError(files, path).Some? ==> r == Err(AncestorError(files, path).value)
    ensures AncestorError(files, path).None? && path !in files ==> r == Err("File not found")
  {
    match AncestorError(files, path)
    case Some(e) => Err(e)
    case None =>
      if path !in files then Err("File not found")
      else match files[path]
        case File(t) => Ok(t)
        case Directory => Err("Is a directory")
        case Denied(m) => Err(m)
  }

  /** A write creates or replaces a file whose directories exist; it fails on a directory or an unwritable entry. */
  function WriteOutcome(files: map<string, Entry>, path: string, content: string): (r: Result<map<string, Entry>, string>)
    ensures r.Ok? <==> AncestorError(files, path).None? && (path in files ==> files[path].File?)
    ensures r.Ok? ==> r.value == files[path := File(content)]
    ensures AncestorError(files, path).Some? ==> r == Err(AncestorError(files, path).value)
    ensures AncestorError(files, path).None? && path in files && files[path].Directory? ==> r == Err("Is a directory")
  {
    match AncestorError(files, path)
    case Some(e) => Err(e)
    case None =>
      if path in files && files[path].Directory? then Err("Is a directory")
      else if path in files && files[path].Denied? then Err(files[path].message)
      else Ok(files[path := File(content)])
  }

  /**
   * Under a regular file at any depth, with only directories above it,
   * reading and writing both fail with the text of `NotADirectoryError`
   * naming the whole path, which `_execute_file` does not translate.
   */
  lemma UnderAFile(files: map<string, Entry>, path: string, content: string, k: nat)
    requires k < |Chain(Parent(path))|
    requires var f := Chain(Parent(path))[k];
      f in files && files[f].File? && forall x | x in Chain(Parent(f)) :: x in files && files[x].Directory?
    ensures ReadOutcome(files, path) == Err(NotADirectory(path))
    ensures WriteOutcome(files, path, content) == Err(NotADirectory(path))
  {
    FileOnTheWay(files, Parent(path), path, k);
  }

  /** Reading or writing `a/b` or `a/b/c` under a regular file `a` names the whole path in the error. */
  lemma UnderAFileExample()
    ensures ReadOutcome(map["a" := File("x")], "a/b") == Err("[Errno 20] Not a directory: 'a/b'")
    ensures WriteOutcome(map["a" := File("x")], "a/b", "y") == Err("[Errno 20] Not a directory: 'a/b'")
    ensures ReadOutcome(map["a" := File("x")], "a/b/c") == Err("[Errno 20] Not a directory: 'a/b/c'")
    ensures WriteOutcome(map["a" := File("x")], "a/b/c", "y") == Err("[Errno 20] Not a directory: 'a/b/c'")
  {
    var files := map["a" := File("x")];
    assert Parent("a/b/c") == "a/b" by {
      assert "a/b/c"[..4] == "a/b/";
      assert "a/b/"[..3] == "a/b";
    }
    assert Parent("a/b") == "a" by {
      assert "a/b"[..2] == "a/";
      assert "a/"[..1] == "a";
    }
    assert Parent("a") == "" by {
      assert "a"[..0] == "";
    }
    assert Chain("a") == ["a"];
    assert Chain("a/b") == ["a/b", "a"];
    UnderAFile(files, "a/b", "y", 0);
    UnderAFile(files, "a/b/c", "y", 1);
    assert NotADirectory("a/b") == "[Errno 20] Not a directory: 'a/b'";
    assert NotADirectory("a/b/c") == "[Errno 20] Not a directory: 'a/b/c'";
  }

  /**
   * `_execute_file` (client/shell.py:435-455): a result of the command's own
   * kind, with the content read or the length written, or the error text:
   * `'File not found'`, `'Is a directory'`, or the exception's own message.
   */
  function ExecuteFile(files: map<string, Entry>, command: Command, base: Base): (r: (AnyResult, map<string, Entry>))
    requires command.FileReadCommand? || command.FileWriteCommand?
    ensures command.FileReadCommand? ==> r.0.FileReadResult? && r.1 == files
    ensures command.FileWriteCommand? ==> r.0.FileWriteResult?
    ensures r.0.cmd == command && r.0.file == command.file && r.0.base == base
  {
    if command.FileReadCommand? then
      match ReadOutcome(files, command.file)
      case Ok(t) => (FileReadResult(command, command.file, Some(t), None, base), files)
      case Err(e) => (FileReadResult(command, command.file, None, Some(e), base), files)
    else
      match WriteOutcome(files, command.file, command.content)
      case Ok(files') => (FileWriteResult(command, command.file, None, Some(|command.content|), base), files')
      case Err(e) => (FileWriteResult(command, command.file, Some(e), None, base), files)
  }

  /**
   * A successful write reports the content's length and changes only that
   * path; reading the path back then yields the content written.
   */
  lemma WriteThenRead(files: map<string, Entry>, file: string, content: string, base: Base, c1: Option<string>, c2: Option<string>)
    requires ExecuteFile(files, FileWriteCommand(file, content, c1), base).0.error.None?
    ensures var (w, files') := ExecuteFile(files, FileWriteCommand(file, content, c1), base);
      w.written == Some(|content|)
      && (forall p | p != file :: (p in files' <==> p in files) && (p in files ==> files'[p] == files[p]))
      && ExecuteFile(files', FileReadCommand(file, c2), base).0.content == Some(content)
  {
    AncestorErrorFrame(files, file, file, File(content));
  }

  /** A failed write changes nothing and reports no length; a failed read reports no content. */
  lemma FileErrors(files: map<string, Entry>, command: Command, base: Base)
    requires command.FileReadCommand? || command.FileWriteCommand?
    ensures var (r, files') := ExecuteFile(files, command, base);
      r.error.Some? ==> files' == files && (r.FileReadResult? ==> r.content.None?) && (r.FileWriteResult? ==> r.written.None?)
    ensures var (r, _) := ExecuteFile(files, command, base);
      command.FileReadCommand? && command.file !in files ==>
        r.error == Some(if AncestorError(files, command.file).Some? then AncestorError(files, command.file).value else "File not found")
    ensures var (r, _) := ExecuteFile(files, command, base);
      command.FileWriteCommand? && command.file !in files ==> (r.error.None? <==> AncestorError(files, command.file).None?)
    ensures var (r, _) := ExecuteFile(files, command, base);
      command.FileWriteCommand? && r.error.None? ==>
        Parent(command.file) == "" || (Parent(command.file) in files && files[Parent(command.file)].Directory?)
  {
  }

  /**
   * The harness's view of one bash process: the lines its reader threads
   * have queued, what has been written to its stdin, and the filesystem.
   */
  class Shell {
    var qStdout: seq<OutputLine>
    var qStderr: seq<OutputLine>
    var stdin: seq<string>
    var files: map<string, Entry>

    constructor (files: map<string, Entry>)
      ensures qStdout == [] && qStderr == [] && stdin == [] && this.files == files
    {
      qStdout, qStderr, stdin := [], [], [];
      this.files := files;
    }

    /** `_get_stdout` (client/shell.py:146-150): every queued line, oldest first, leaving the queue empty. */
    method GetStdout() returns (lines: seq<OutputLine>)
      modifies this
      ensures lines == old(qStdout) && qStdout == []
      ensures qStderr == old(qStderr) && stdin == old(stdin) && files == old(files)
    {
      lines := qStdout;
      qStdout := [];
    }

    /** `_get_stderr` (client/shell.py:152-156). */
    method GetStderr() returns (lines: seq<OutputLine>)
      modifies this
      ensures lines == old(qStderr) && qStderr == []
      ensures qStdout == old(qStdout) && stdin == old(stdin) && files == old(files)
    {
      lines := qStderr;
      qStderr := [];
    }

    /** `_put_stdin`. */
    method PutStdin(line: string)
      modifies this
      ensures stdin == old(stdin) + [line]
      ensures qStdout == old(qStdout) && qStderr == old(qStderr) && files == old(files)
    {
      stdin := stdin + [line];
    }

    /**
     * `_execute_shell` (client/shell.py:392-427), the harness's part of it.
     * A refused command is answered by `_lex` and never written; building
     * that answer asks the shell for its prompt, so only the prompt probe
     * reaches stdin. A command that runs is written, then the probe; its
     * result carries the drained queues and the exit code the prompt shows.
     */
    method ExecuteShell(command: Command, parsed: Parsed, probe: string, promptText: string, base: Base, now: int)
      returns (r: Result<AnyResult, PyError>)
      requires command.ShellCommand?
      modifies this
      ensures files == old(files)
      ensures var v := LexVerdict(command.command, parsed);
        v.Err? ==> r == Err(v.error) && stdin == old(stdin) && qStdout == old(qStdout) && qStderr == old(qStderr)
      ensures var v := LexVerdict(command.command, parsed);
        v.Ok? && v.value.Refuse? ==>
          (stdin == old(stdin) + [probe] && qStdout == old(qStdout) && qStderr == old(qStderr)
           && (ParsePrompt(promptText).Err? ==> r == Err(ParsePrompt(promptText).error))
           && (ParsePrompt(promptText).Ok? ==>
                r == Ok(DummyResult(command.command, v.value.exitCode, v.value.stderr, ParsePrompt(promptText).value, base, now))))
      ensures LexVerdict(command.command, parsed) == Ok(Run) ==> stdin == old(stdin) + [command.command, probe]
      ensures LexVerdict(command.command, parsed) == Ok(Run) && ParsePrompt(promptText).Err? ==>
        r == Err(ParsePrompt(promptText).error) && qStdout == old(qStdout) && qStderr == old(qStderr)
      ensures LexVerdict(command.command, parsed) == Ok(Run) && ParsePrompt(promptText).Ok? ==>
        var p := ParsePrompt(promptText).value;
        r == Ok(ShellResult(command, p, old(qStdout), old(qStderr), p.exitCode, base)) && qStdout == [] && qStderr == []
    {
      var verdict := LexVerdict(command.command, parsed);
      if verdict.Err? {
        return Err(verdict.error);
      }
      if verdict.value.Refuse? {
        PutStdin(probe);
        var p := ParsePrompt(promptText);
        if p.Err? {
          return Err(p.error);
        }
        return Ok(DummyResult(command.command, verdict.value.exitCode, verdict.value.stderr, p.value, base, now));
      }
      r := RunShell(command, probe, promptText, base);
    }

    /** The part of `_execute_shell` after `_lex` lets the command through: write it and the probe, read the prompt, drain the queues. */
    method RunShell(command: Command, probe: string, promptText: string, base: Base) returns (r: Result<AnyResult, PyError>)
      requires command.ShellCommand?
      modifies this
      ensures files == old(files) && stdin == old(stdin) + [command.command, probe]
      ensures ParsePrompt(promptText).Err? ==>
        r == Err(ParsePrompt(promptText).error) && qStdout == old(qStdout) && qStderr == old(qStderr)
      ensures ParsePrompt(promptText).Ok? ==>
        var p := ParsePrompt(promptText).value;
        r == Ok(ShellResult(command, p, old(qStdout), old(qStderr), p.exitCode, base)) && qStdout == [] && qStderr == []
    {
      PutStdin(command.command);
      PutStdin(probe);
      var p := ParsePrompt(promptText);
      if p.Err? {
        return Err(p.error);
      }
      var out := GetStdout();
      var err := GetStderr();
      r := Ok(ShellResult(command, p.value, out, err, p.value.exitCode, base));
    }

    /**
     * `execute` (client/shell.py:466-473): shell commands to the shell,
     * file commands to the filesystem, `ValueError` for anything else.
     */
    method Execute(command: Command, parsed: Parsed, probe: string, promptText: string, base: Base, now: int)
      returns (r: Result<AnyResult, PyError>)
      modifies this
      ensures command.Unsupported? ==> r == Err(ValueError("Invalid command type: " + command.kind))
      ensures !command.ShellCommand? ==> stdin == old(stdin) && qStdout == old(qStdout) && qStderr == old(qStderr)
      ensures command.FileReadCommand? || command.FileWriteCommand? ==>
        var (result, files') := ExecuteFile(old(files), command, base);
        r == Ok(result) && files == files'
      ensures command.ShellCommand? ==> files == old(files)
      ensures command.ShellCommand? && r.Ok? ==> r.value.ShellResult?
    {
      match command
      case ShellCommand(_, _) =>
        r := ExecuteShell(command, parsed, probe, promptText, base, now);
      case Unsupported(kind) =>
        r := Err(ValueError("Invalid command type: " + kind));
      case _ =>
        var (result, files') := ExecuteFile(files, command, base);
        files := files';
        r := Ok(result);
    }
  }
}
