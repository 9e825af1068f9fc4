/**
 * The agent's side of the chat (immutable/llama.py): the history of shell
 * results, the messages built from it, and the generation options.
 *
 * The ollama client and its reply are left out; what is modelled is the
 * request `prompt` would send. Reading `config.json`, `system.md` and the
 * descriptor behind `fd_path('system.md')` are inputs.
 */
module ImmutableLlama {
  import opened Wrappers
  import opened Exceptions
  import opened Output
  import Text
  import FdIndex
  import ImmutableShell
  import Prompts

  /** `N_CTX` (immutable/llama.py:22). */
  const NCtx := 8192

  /** The commands `_initial_commands` runs (immutable/llama.py:32-38). */
  const InitialCommandTexts: seq<string> :=
    ["ls -la", "cat app.py", "echo \"Hello, world!\" > hello.txt", "cat hello.txt", "cat system.md"]

  /** An option value; only the numbers set here are inspected. */
  datatype OptionValue = Num(n: int) | Other(json: string)

  type Options = map<string, OptionValue>

  /** `CONFIG_BASE` (immutable/llama.py:26). */
  const ConfigBase: Options := map["num_ctx" := Num(NCtx), "num_predict" := Num(NCtx)]

  /**
   * What reading `config.json` can give: no file, text that is not JSON,
   * JSON without `LlmOptions`, a value that is not a mapping (raising
   * `TypeError` with the given message), or the options.
   */
  datatype ConfigFile = Missing | NotJson | NoOptions | NotMapping(message: string) | Found(options: Options)

  /** `Llama._config` (immutable/llama.py:96-109): the user's options with `CONFIG_BASE` laid over them. */
  function Config(file: ConfigFile): (r: Result<Options, PyError>)
    ensures r.Err? <==> file.NotMapping?
  {
    match file
    case Found(o) => Ok(o + ConfigBase)
    case NotMapping(m) => Err(TypeError(m))
    case _ => Ok(ConfigBase)
  }

  /**
   * The base always wins on its own keys, every other user option is kept
   * as it is, nothing else is added, and a file without usable options
   * gives exactly the base.
   */
  lemma ConfigMerge(file: ConfigFile)
    ensures Config(file).Ok? ==> forall k | k in ConfigBase :: k in Config(file).value && Config(file).value[k] == ConfigBase[k]
    ensures file.Found? ==>
      (Config(file).value.Keys == file.options.Keys + ConfigBase.Keys
       && forall k | k in file.options && k !in ConfigBase :: Config(file).value[k] == file.options[k])
    ensures file.Missing? || file.NotJson? || file.NoOptions? ==> Config(file) == Ok(ConfigBase)
    ensures file.NotMapping? ==> Config(file) == Err(TypeError(file.message))
  {
  }

  /** Merging a second time changes nothing: the options `_config` returns are a fixpoint of it. */
  lemma ConfigIdempotent(o: Options)
    ensures Config(Found(Config(Found(o)).value)) == Config(Found(o))
  {
    assert (o + ConfigBase) + ConfigBase == o + ConfigBase;
  }

  /** A chat message. */
  datatype Message = System(content: string) | Assistant(content: string) | User(content: string)

  /** The texts of merged lines, in order. */
  function TaggedTexts(lines: seq<Tagged>): seq<string> {
    if lines == [] then [] else [lines[0].text] + TaggedTexts(lines[1..])
  }

  /**
   * The user content for a result (immutable/llama.py:55-66): stdout and
   * stderr merged by timestamp and joined, a newline, then the prompt.
   */
  function UserText(r: ImmutableShell.CommandResult): string {
    Text.Concat(TaggedTexts(Merged(r.stdout, r.stderr))) + "\n" + ImmutableShell.PromptText(r)
  }

  /** Tagging lines and taking their texts back gives the lines' texts. */
  lemma {:induction false} TextsOfTag(lines: seq<OutputLine>, stream: Stream)
    ensures TaggedTexts(Tag(lines, stream)) == Texts(lines)
  {
    if lines != [] {
      TextsOfTag(lines[1..], stream);
      var t := Tag(lines, stream);
      assert t[1..] == Tag(lines[1..], stream);
    }
  }

  /** A sequence already in time order is left as it is by the sort. */
  lemma SortSorted(s: seq<Tagged>)
    requires Sorted(s)
    ensures SortByTime(s) == s
  {
    SortByTimeFacts(s);
    SortedUnique(SortByTime(s), s);
  }

  /** A command whose stdout came in time order and which wrote nothing to stderr shows its stdout as written. */
  lemma UserTextInOrder(r: ImmutableShell.CommandResult)
    requires r.stderr == []
    requires forall i, j | 0 <= i < j < |r.stdout| :: r.stdout[i].time <= r.stdout[j].time
    ensures UserText(r) == Text.Concat(Texts(r.stdout)) + "\n" + r.ps1.ps1
  {
    var a := Tag(r.stdout, Stdout);
    assert Tag(r.stderr, Stderr) == [];
    assert a + [] == a;
    SortSorted(a);
    TextsOfTag(r.stdout, Stdout);
  }

  /** The user content always ends in a newline and the prompt bash printed. */
  lemma UserTextEndsWithPrompt(r: ImmutableShell.CommandResult)
    ensures var t := UserText(r);
      |t| > |r.ps1.ps1| && t[|t| - |r.ps1.ps1|..] == r.ps1.ps1 && t[|t| - |r.ps1.ps1| - 1] == '\n'
  {
  }

  /** The two messages of one history entry. */
  function Exchange(r: ImmutableShell.CommandResult): (m: seq<Message>)
    ensures |m| == 2
  {
    [Assistant(r.command), User(UserText(r))]
  }

  /** `_from_commands` (immutable/llama.py:44-72), reading the prompt where `run` stores it. */
  function FromCommands(h: seq<ImmutableShell.CommandResult>): (m: seq<Message>)
    ensures |m| == 2 * |h|
  {
    if h == [] then [] else FromCommands(h[..|h| - 1]) + Exchange(h[|h| - 1])
  }

  /** Entry `i` of the history becomes messages `2i` (assistant, the command) and `2i + 1` (user, its output). */
  lemma {:induction false} FromCommandsAt(h: seq<ImmutableShell.CommandResult>, i: nat)
    requires i < |h|
    ensures FromCommands(h)[2 * i] == Assistant(h[i].command)
    ensures FromCommands(h)[2 * i + 1] == User(UserText(h[i]))
  {
    var init := h[..|h| - 1];
    assert FromCommands(h) == FromCommands(init) + Exchange(h[|h| - 1]);
    if i < |h| - 1 {
      FromCommandsAt(init, i);
      assert init[i] == h[i];
    }
  }

  /** One more entry adds its two messages at the end and leaves the others. */
  lemma FromCommandsSnoc(h: seq<ImmutableShell.CommandResult>, r: ImmutableShell.CommandResult)
    ensures FromCommands(h + [r]) == FromCommands(h) + [Assistant(r.command), User(UserText(r))]
  {
    assert (h + [r])[..|h|] == h;
  }

  /** `_from_commands` as written: `command['prompt']['prompt']` on results that hold the prompt under `ps1`. */
  function FromCommandsAsWritten(h: seq<ImmutableShell.CommandResult>): Result<seq<Message>, PyError> {
    if h == [] then Ok([])
    else match ImmutableShell.PromptTextAsWritten(h[0])
      case Err(e) => Err(e)
      case Ok(p) =>
        match FromCommandsAsWritten(h[1..])
        case Err(e) => Err(e)
        case Ok(rest) => Ok([Assistant(h[0].command), User(p)] + rest)
  }

  /** As written, any history with an entry raises `KeyError: 'prompt'`, and the initial history has five. */
  lemma FromCommandsAsWrittenFails(h: seq<ImmutableShell.CommandResult>)
    requires h != []
    ensures FromCommandsAsWritten(h) == Err(KeyError("prompt"))
  {
    ImmutableShell.PromptLookupFails(h[0]);
  }

  /** The system text: the immutable prompt, a separator, then the agent's own. */
  function SystemText(immutable: string, mutable: Option<string>): string {
    immutable + "\n\n=====\n\n" + (if mutable.Some? then mutable.value else "")
  }

  /** What `prompt` hands to the client: the messages and the options. */
  datatype Request = Request(messages: seq<Message>, options: Options)

  /** The lines `_initial_commands` writes to bash: each command, then the prompt probe. */
  function Written(commands: seq<string>, probe: string): (r: seq<string>)
    ensures |r| == 2 * |commands|
  {
    if commands == [] then [] else Written(commands[..|commands| - 1], probe) + [commands[|commands| - 1], probe]
  }

  /** The command `i` is line `2i` of what is written, and the probe follows it. */
  lemma {:induction false} WrittenAt(commands: seq<string>, probe: string, i: nat)
    requires i < |commands|
    ensures Written(commands, probe)[2 * i] == commands[i] && Written(commands, probe)[2 * i + 1] == probe
  {
    var init := commands[..|commands| - 1];
    if i < |commands| - 1 {
      WrittenAt(init, probe, i);
      assert init[i] == commands[i];
    }
  }

  /** Writing the next initial command and the probe extends what was written by one round. */
  lemma WrittenStep(stdin0: seq<string>, before: seq<string>, after: seq<string>, i: nat, probe: string)
    requires i < |InitialCommandTexts|
    requires before == stdin0 + Written(InitialCommandTexts[..i], probe)
    requires after == before + [InitialCommandTexts[i], probe]
    ensures after == stdin0 + Written(InitialCommandTexts[..i + 1], probe)
  {
    var next := InitialCommandTexts[..i + 1];
    assert next[..|next| - 1] == InitialCommandTexts[..i];
  }

  /**
   * What each of the initial runs meets: the lexer's verdict, the lines
   * bash prints on each pipe, and what it writes into the FIFO.
   */
  datatype RunInputs = RunInputs(lexError: Option<PyError>, stdout: seq<OutputLine>, stderr: seq<OutputLine>, written: Option<string>)

  /** The run gets as far as a prompt that parses: PS1 is set, the command lexes, bash answers in time. */
  predicate Answered(envPs1: Option<string>, run: RunInputs) {
    envPs1.Some? && run.lexError.None? && run.written.Some?
    && Prompts.Match(ImmutableShell.FifoRead(run.written.value)).Some?
  }

  /**
   * The result `shell.run` gives for initial command `i`: lines left in the
   * queues before the first command are reported with it, and each later
   * command finds them drained.
   */
  function InitialAnswer(i: nat, run: RunInputs, out0: seq<OutputLine>, err0: seq<OutputLine>): Result<ImmutableShell.CommandResult, PyError>
    requires i < |InitialCommandTexts| && run.written.Some?
  {
    ImmutableShell.Answer(InitialCommandTexts[i], run.written.value,
      (if i == 0 then out0 else []) + run.stdout, (if i == 0 then err0 else []) + run.stderr)
  }

  /** One run of `_initial_commands`: the `i`-th command, its result added to the rest. */
  method RunInitial(shell: ImmutableShell.Shell, i: nat, envPs1: Option<string>, fifo: string, run: RunInputs,
                    results: seq<ImmutableShell.CommandResult>, ghost stdin0: seq<string>)
    returns (r: Result<seq<ImmutableShell.CommandResult>, PyError>)
    requires i < |InitialCommandTexts|
    requires envPs1.Some? ==> shell.stdin == stdin0 + Written(InitialCommandTexts[..i], ImmutableShell.Probe(envPs1.value, fifo))
    modifies shell
    ensures r.Ok? <==> Answered(envPs1, run)
    ensures r.Ok? ==>
      (r.value == results + [ImmutableShell.Answer(InitialCommandTexts[i], run.written.value,
                                                   old(shell.qStdout) + run.stdout, old(shell.qStderr) + run.stderr).value]
       && shell.qStdout == [] && shell.qStderr == []
       && shell.stdin == stdin0 + Written(InitialCommandTexts[..i + 1], ImmutableShell.Probe(envPs1.value, fifo)))
    ensures envPs1.None? && run.lexError.None? ==> r == Err(KeyError("PS1"))
  {
    var one := shell.Run(InitialCommandTexts[i], run.lexError, envPs1, fifo, run.stdout, run.stderr, run.written);
    if one.Err? {
      return Err(one.error);
    }
    WrittenStep(stdin0, old(shell.stdin), shell.stdin, i, ImmutableShell.Probe(envPs1.value, fifo));
    r := Ok(results + [one.value]);
  }

  /**
   * `_initial_commands` (immutable/llama.py:31-41): the five commands run
   * in order; the first failure propagates. The history exists exactly
   * when every command got a parsable prompt; then entry `i` is the result
   * `shell.run` gave for command `i` (its output, its prompt and that
   * prompt's exit code) and bash was fed each command followed by the
   * prompt probe.
   */
  method InitialCommands(shell: ImmutableShell.Shell, envPs1: Option<string>, fifo: string, runs: seq<RunInputs>)
    returns (r: Result<seq<ImmutableShell.CommandResult>, PyError>)
    requires |runs| == |InitialCommandTexts|
    modifies shell
    ensures r.Ok? <==> forall i | 0 <= i < |runs| :: Answered(envPs1, runs[i])
    ensures r.Ok? ==>
      (envPs1.Some? && |r.value| == |InitialCommandTexts|
       && (forall i | 0 <= i < |r.value| ::
             r.value[i].command == InitialCommandTexts[i]
             && Ok(r.value[i]) == InitialAnswer(i, runs[i], old(shell.qStdout), old(shell.qStderr)))
       && shell.stdin == old(shell.stdin) + Written(InitialCommandTexts, ImmutableShell.Probe(envPs1.value, fifo)))
    ensures envPs1.None? && runs[0].lexError.None? ==> r == Err(KeyError("PS1"))
  {
    var results: seq<ImmutableShell.CommandResult> := [];
    ghost var stdin0, out0, err0 := shell.stdin, shell.qStdout, shell.qStderr;
    for i := 0 to |InitialCommandTexts|
      invariant |results| == i
      invariant forall j | 0 <= j < i :: Answered(envPs1, runs[j])
      invariant forall j | 0 <= j < i ::
        results[j].command == InitialCommandTexts[j] && Ok(results[j]) == InitialAnswer(j, runs[j], out0, err0)
      invariant envPs1.Some? ==> shell.stdin == stdin0 + Written(InitialCommandTexts[..i], ImmutableShell.Probe(envPs1.value, fifo))
      invariant i == 0 ==> shell.qStdout == out0 && shell.qStderr == err0
      invariant i > 0 ==> envPs1.Some? && shell.qStdout == [] && shell.qStderr == []
    {
      ghost var q0, e0 := shell.qStdout, shell.qStderr;
      assert q0 == (if i == 0 then out0 else []) + [] && e0 == (if i == 0 then err0 else []) + [];
      r := RunInitial(shell, i, envPs1, fifo, runs[i], results, stdin0);
      if r.Err? {
        assert !Answered(envPs1, runs[i]);
        return;
      }
      assert r.value[i] == ImmutableShell.Answer(InitialCommandTexts[i], runs[i].written.value,
                                                 q0 + runs[i].stdout, e0 + runs[i].stderr).value;
      assert Ok(r.value[i]) == InitialAnswer(i, runs[i], out0, err0);
      forall j | 0 <= j <= i
        ensures Answered(envPs1, runs[j])
        ensures r.value[j].command == InitialCommandTexts[j] && Ok(r.value[j]) == InitialAnswer(j, runs[j], out0, err0)
      {
        if j < i {
          assert r.value[j] == results[j];
        }
      }
      results := r.value;
    }
    assert InitialCommandTexts[..|InitialCommandTexts|] == InitialCommandTexts;
    r := Ok(results);
  }

  /** `Llama`: the history the chat is built from. */
  class Llama {
    var history: seq<ImmutableShell.CommandResult>

    /** `__init__` (immutable/llama.py:82-94), given what `_initial_commands` returned. */
    constructor (initial: seq<ImmutableShell.CommandResult>)
      ensures history == initial
    {
      history := initial;
    }

    /** `append` (immutable/llama.py:136-138). */
    method Append(result: ImmutableShell.CommandResult)
      modifies this`history
      ensures history == old(history) + [result]
    {
      history := history + [result];
    }

    /**
     * `prompt` (immutable/llama.py:111-134) up to the call to the client:
     * `fd_path('system.md')` may raise `FileNotFoundError` and `_config`
     * `TypeError`; otherwise one system message, then two per entry, with
     * the merged options.
     */
    function PromptRequest(index: map<string, int>, immutable: string, mutable: Option<string>, file: ConfigFile): (r: Result<Request, PyError>)
      reads this
      ensures "system.md" !in index ==> r == Err(FileNotFoundError("File not found: " + "system.md"))
      ensures "system.md" in index ==> (r.Err? <==> file.NotMapping?)
      ensures r.Ok? ==>
        (|r.value.messages| == 1 + 2 * |history|
         && r.value.messages[0] == System(SystemText(immutable, mutable))
         && r.value.messages[1..] == FromCommands(history)
         && forall k | k in ConfigBase :: k in r.value.options && r.value.options[k] == ConfigBase[k])
    {
      match FdIndex.FdPath(index, "system.md")
      case Err(e) => Err(e)
      case Ok(_) =>
        var messages := [System(SystemText(immutable, mutable))] + FromCommands(history);
        match Config(file)
        case Err(e) => Err(e)
        case Ok(options) => Ok(Request(messages, options))
    }
  }
}
