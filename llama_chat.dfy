/**
 * The server's chat with the model (server/llama_chat.py): the command
 * history is turned into chat messages, and the oldest entries are dropped
 * until the prompt fits the context window.
 *
 * The tokenizer (`tokenize_messages`), the server's `n_ctx` and the model's
 * reply are inputs. `CommandResult` and `SimpleCommandResult` are imported
 * by the source but defined nowhere in it: a history entry is taken as the
 * record of the fields read here, and the simplified result as the four
 * fields `_simplify` sets, in that order.
 */
module LlamaChat {
  import opened Wrappers
  import opened Exceptions
  import opened Output
  import Text
  import ClientShell

  /** `LLAMA_TOKEN_BUFFER` (server/const.py:20): tokens kept free for the reply. */
  const TokenBuffer := 512

  /** What `append_command` falls back to when a result carries no system prompt. */
  const DefaultSystemMutable := "Write your system prompt to /app/system.md."

  /** A history entry: the command's text, the prompt after it, its output and exit code, and the client's settings. */
  datatype CommandResult = CommandResult(
    command: string, prompt: string, stdout: seq<OutputLine>, stderr: seq<OutputLine>, exitCode: int,
    base: ClientShell.Base)

  /** A result as the model is shown it. */
  datatype Simple = Simple(prompt: string, stdout: string, stderr: string, exitCode: int)

  /** A JSON value of the dumped result, and a key with its value. */
  datatype Value = Str(s: string) | Int(n: int)
  datatype Field = Field(key: string, value: Value)

  /** A chat message; the user's content is the JSON object, kept as its list of fields. */
  datatype ChatMessage = System(content: string) | Assistant(content: string) | User(fields: seq<Field>)

  /** `''.join(v[1] for v in lines)`. */
  function Joined(lines: seq<OutputLine>): string {
    Text.Concat(Texts(lines))
  }

  /** Joining a longer output adds the new line's text at the end. */
  lemma {:induction false} JoinedSnoc(lines: seq<OutputLine>, l: OutputLine)
    ensures Joined(lines + [l]) == Joined(lines) + l.text
  {
    if lines == [] {
      assert Texts([l]) == [l.text];
    } else {
      assert (lines + [l])[1..] == lines[1..] + [l];
      JoinedSnoc(lines[1..], l);
    }
  }

  /** `_simplify` (server/llama_chat.py:20-26). */
  function Simplify(c: CommandResult): (r: Simple)
    ensures r.prompt == c.prompt && r.exitCode == c.exitCode
    ensures c.stdout == [] ==> r.stdout == ""
    ensures c.stderr == [] ==> r.stderr == ""
  {
    Simple(c.prompt, Joined(c.stdout), Joined(c.stderr), c.exitCode)
  }

  /** A result with one more line of output shows that line's text at the end of the simplified output. */
  lemma SimplifyOneMoreLine(c: CommandResult, l: OutputLine)
    ensures Simplify(c.(stdout := c.stdout + [l])).stdout == Simplify(c).stdout + l.text
    ensures Simplify(c.(stderr := c.stderr + [l])).stderr == Simplify(c).stderr + l.text
  {
    JoinedSnoc(c.stdout, l);
    JoinedSnoc(c.stderr, l);
  }

  /** Python truthiness: the empty string and zero are false. */
  predicate Truthy(v: Value) {
    match v
    case Str(s) => s != ""
    case Int(n) => n != 0
  }

  /** `model_dump()`: the fields in declaration order. */
  function Dump(s: Simple): seq<Field> {
    [Field("prompt", Str(s.prompt)), Field("stdout", Str(s.stdout)), Field("stderr", Str(s.stderr)),
     Field("exit_code", Int(s.exitCode))]
  }

  /** `{k: v for k, v in fields if v}`. */
  function Kept(fields: seq<Field>): seq<Field> {
    if fields == [] then []
    else (if Truthy(fields[0].value) then [fields[0]] else []) + Kept(fields[1..])
  }

  /** The kept fields are those that are truthy, none other, and in their order. */
  lemma {:induction false} KeptFacts(fields: seq<Field>)
    ensures |Kept(fields)| <= |fields|
    ensures forall f :: f in Kept(fields) <==> f in fields && Truthy(f.value)
  {
    if fields != [] {
      KeptFacts(fields[1..]);
      assert fields == [fields[0]] + fields[1..];
    }
  }

  /** The user message's content for one result. */
  function UserContent(c: CommandResult): seq<Field> {
    Kept(Dump(Simplify(c)))
  }

  /** A zero exit code, an empty output and an empty prompt are left out; anything else is shown as it is. */
  lemma UserContentFields(c: CommandResult)
    ensures Field("exit_code", Int(c.exitCode)) in UserContent(c) <==> c.exitCode != 0
    ensures Field("stdout", Str(Joined(c.stdout))) in UserContent(c) <==> Joined(c.stdout) != ""
    ensures Field("stderr", Str(Joined(c.stderr))) in UserContent(c) <==> Joined(c.stderr) != ""
    ensures Field("prompt", Str(c.prompt)) in UserContent(c) <==> c.prompt != ""
    ensures forall f | f in UserContent(c) :: Truthy(f.value)
  {
    KeptFacts(Dump(Simplify(c)));
  }

  /** A result with no output and exit code zero shows only its prompt. */
  lemma QuietResult(c: CommandResult)
    requires c.stdout == [] && c.stderr == [] && c.exitCode == 0 && c.prompt != ""
    ensures UserContent(c) == [Field("prompt", Str(c.prompt))]
  {
    var d := Dump(Simplify(c));
    assert Kept(d[3..]) == [] by {
      assert d[3..][1..] == [];
    }
    assert Kept(d[2..]) == [] by {
      assert d[2..][1..] == d[3..];
    }
    assert Kept(d[1..]) == [] by {
      assert d[1..][1..] == d[2..];
    }
  }

  /** The two messages of one history entry: the command, then what came of it. */
  function Exchange(c: CommandResult): (r: seq<ChatMessage>)
    ensures |r| == 2
  {
    [Assistant(c.command), User(UserContent(c))]
  }

  /** `_from_commands` (server/llama_chat.py:29-49). */
  function FromCommands(h: seq<CommandResult>): (r: seq<ChatMessage>)
    ensures |r| == 2 * |h|
  {
    if h == [] then [] else FromCommands(h[..|h| - 1]) + Exchange(h[|h| - 1])
  }

  /** Entry `i` of the history becomes messages `2i` (assistant) and `2i + 1` (user). */
  lemma {:induction false} FromCommandsAt(h: seq<CommandResult>, i: nat)
    requires i < |h|
    ensures FromCommands(h)[2 * i] == Assistant(h[i].command)
    ensures FromCommands(h)[2 * i + 1] == User(UserContent(h[i]))
  {
    var init := h[..|h| - 1];
    assert FromCommands(h) == FromCommands(init) + Exchange(h[|h| - 1]);
    if i < |h| - 1 {
      FromCommandsAt(init, i);
      assert init[i] == h[i];
    }
  }

  /** The messages of two histories in a row are the messages of the first, then of the second. */
  lemma {:induction false} FromCommandsAppend(a: seq<CommandResult>, b: seq<CommandResult>)
    ensures FromCommands(a + b) == FromCommands(a) + FromCommands(b)
  {
    if b != [] {
      var b' := b[..|b| - 1];
      assert (a + b)[..|a + b| - 1] == a + b';
      assert (a + b)[|a + b| - 1] == b[|b| - 1];
      assert FromCommands(a + b) == FromCommands(a + b') + Exchange(b[|b| - 1]);
      FromCommandsAppend(a, b');
      assert FromCommands(b) == FromCommands(b') + Exchange(b[|b| - 1]);
    } else {
      assert a + b == a;
    }
  }

  /** Dropping the oldest `k` entries drops the first `2k` messages and leaves the rest as they were. */
  lemma FromCommandsSuffix(h: seq<CommandResult>, k: nat)
    requires k <= |h|
    ensures FromCommands(h[k..]) == FromCommands(h)[2 * k..]
  {
    assert h == h[..k] + h[k..];
    FromCommandsAppend(h[..k], h[k..]);
  }

  /** `system` (server/llama_chat.py:80-92). */
  function SystemText(goal: string, system: string, mutable: string): string {
    "# Primary goal: " + goal + "\n\n" + system + "\n\n=====\n\n" + mutable
  }

  /** The goal heads the system text and the mutable part closes it, so each can be read back from it. */
  lemma SystemTextParts(goal: string, system: string, mutable: string)
    ensures var t := SystemText(goal, system, mutable);
      |t| == 16 + |goal| + 2 + |system| + 9 + |mutable|
      && t[..16 + |goal|] == "# Primary goal: " + goal
      && t[|t| - |mutable|..] == mutable
      && t[|t| - |mutable| - 9..|t| - |mutable|] == "\n\n=====\n\n"
  {
  }

  /** The messages sent for a history. */
  function Prompt(sys: string, h: seq<CommandResult>): (r: seq<ChatMessage>)
    ensures |r| == 1 + 2 * |h| && r[0] == System(sys)
  {
    [System(sys)] + FromCommands(h)
  }

  /** The prompt for the history from its `k`-th entry on fits in `limit` tokens. */
  predicate FitsFrom(count: seq<ChatMessage> -> nat, sys: string, h: seq<CommandResult>, limit: int, k: nat)
    requires k <= |h|
  {
    count(Prompt(sys, h[k..])) <= limit
  }

  /** The fewest oldest entries, from the `k`-th on, to drop for the prompt to fit in `limit` tokens. */
  function FirstFit(count: seq<ChatMessage> -> nat, sys: string, h: seq<CommandResult>, limit: int, k: nat): (r: Option<nat>)
    ensures r.Some? ==> k <= r.value < |h|
    decreases |h| - k
  {
    if k >= |h| then None
    else if FitsFrom(count, sys, h, limit, k) then Some(k)
    else FirstFit(count, sys, h, limit, k + 1)
  }

  /**
   * A fit keeps a non-empty suffix whose prompt fits, and every longer
   * suffix from `k` on does not fit; no fit means no non-empty suffix fits.
   */
  lemma {:induction false} FirstFitFacts(count: seq<ChatMessage> -> nat, sys: string, h: seq<CommandResult>, limit: int, k: nat)
    ensures FirstFit(count, sys, h, limit, k).Some? ==>
      (var j := FirstFit(count, sys, h, limit, k).value;
       h[j..] != [] && FitsFrom(count, sys, h, limit, j)
       && forall i | k <= i < j :: !FitsFrom(count, sys, h, limit, i))
    ensures FirstFit(count, sys, h, limit, k).None? ==>
      forall i | k <= i < |h| :: !FitsFrom(count, sys, h, limit, i)
    decreases |h| - k
  {
    if k < |h| && !FitsFrom(count, sys, h, limit, k) {
      FirstFitFacts(count, sys, h, limit, k + 1);
    }
  }

  /** `result.x or default` for an optional string. */
  function OrElse(o: Option<string>, default: string): (r: string)
    ensures o.Some? && o.value != "" ==> r == o.value
    ensures !(o.Some? && o.value != "") ==> r == default
  {
    if o.Some? && o.value != "" then o.value else default
  }

  /** How an optional count appears in the error message: Python prints `None` for a missing one. */
  function Shown(o: Option<nat>): string {
    if o.None? then "None" else Text.Decimal(o.value)
  }

  /** The message `_get_prompt` raises when nothing fits. */
  function NoFit(nCtx: int, initial: Option<nat>, tokens: Option<nat>): (r: string)
    ensures Text.StartsWith(r, "No commands fit in " + Text.Decimal(nCtx) + " tokens")
  {
    "No commands fit in " + Text.Decimal(nCtx) + " tokens (initial: " + Shown(initial) + ", now " + Shown(tokens) + ")"
  }

  /** `LlamaChat`: the history and the settings the last result brought. */
  class Chat {
    var history: seq<CommandResult>
    var config: ClientShell.Config
    /** `system.md` as read at start. */
    var system: string
    var goal: string
    /** Unset until the first result arrives. */
    var systemMutable: Option<string>

    /** `__init__` (server/llama_chat.py:62-70), with `system.md` and `LLAMA_DEFAULT_GOAL` as inputs. */
    constructor (system: string, defaultGoal: string)
      ensures history == [] && config == ClientShell.Config(None)
      ensures this.system == system && goal == defaultGoal && systemMutable == None
    {
      history := [];
      config := ClientShell.Config(None);
      this.system := system;
      goal := defaultGoal;
      systemMutable := None;
    }

    /**
     * `append_command` (server/llama_chat.py:72-78): the result's settings
     * replace the current ones, missing or empty ones by their defaults,
     * and the result goes to the end of the history. An empty goal with
     * `LLAMA_DEFAULT_GOAL` unset raises `KeyError` once the config and the
     * system prompt are already replaced.
     */
    method AppendCommand(result: CommandResult, envGoal: Option<string>) returns (r: Result<(), PyError>)
      modifies this`config, this`systemMutable, this`goal, this`history
      ensures config == (if result.base.config.Some? then result.base.config.value else ClientShell.Config(None))
      ensures systemMutable == Some(OrElse(result.base.system, DefaultSystemMutable))
      ensures r.Err? <==> OrElse(result.base.goal, "") == "" && envGoal.None?
      ensures r.Err? ==> r.error == KeyError("LLAMA_DEFAULT_GOAL") && goal == old(goal) && history == old(history)
      ensures r.Ok? ==>
        (goal == (if OrElse(result.base.goal, "") != "" then result.base.goal.value else envGoal.value)
         && history == old(history) + [result])
    {
      config := if result.base.config.Some? then result.base.config.value else ClientShell.Config(None);
      systemMutable := Some(OrElse(result.base.system, DefaultSystemMutable));
      if OrElse(result.base.goal, "") != "" {
        goal := result.base.goal.value;
      } else if envGoal.Some? {
        goal := envGoal.value;
      } else {
        return Err(KeyError("LLAMA_DEFAULT_GOAL"));
      }
      history := history + [result];
      r := Ok(());
    }

    /** The system text; reading it before any result has arrived raises `AttributeError`. */
    function SystemMessage(): (r: Result<string, PyError>)
      reads this`systemMutable, this`goal, this`system
      ensures r.Ok? <==> systemMutable.Some?
      ensures r.Err? ==> r.error == OtherError("'LlamaChat' object has no attribute '_system_mutable'")
    {
      if systemMutable.None? then Err(OtherError("'LlamaChat' object has no attribute '_system_mutable'"))
      else Ok(SystemText(goal, system, systemMutable.value))
    }

    /**
     * `_get_prompt` (server/llama_chat.py:94-114): the oldest entries are
     * popped until the prompt fits in `n_ctx - LLAMA_TOKEN_BUFFER` tokens,
     * and that prompt is returned; when none fits, the history is left
     * empty and `ValueError` is raised.
     */
    method GetPrompt(count: seq<ChatMessage> -> nat, nCtx: int) returns (r: Result<seq<ChatMessage>, PyError>)
      modifies this`history
      ensures SystemMessage().Err? ==> r == Err(SystemMessage().error) && history == old(history)
      ensures SystemMessage().Ok? ==>
        (var fit := FirstFit(count, SystemMessage().value, old(history), nCtx - TokenBuffer, 0);
         (r.Ok? <==> fit.Some?)
         && (fit.Some? ==> history == old(history)[fit.value..] && r.value == Prompt(SystemMessage().value, history))
         && (fit.None? ==>
               (history == [] && r.Err? && r.error.ValueError?
                && Text.StartsWith(r.error.message, "No commands fit in " + Text.Decimal(nCtx) + " tokens"))))
      ensures SystemMessage().Ok? && old(history) == [] ==> r == Err(ValueError(NoFit(nCtx, None, None)))
    {
      var sys := SystemMessage();
      if sys.Err? {
        return Err(sys.error);
      }
      r := Trim(count, sys.value, nCtx);
    }

    /** The popping loop of `_get_prompt` (server/llama_chat.py:100-114), with the system text already built. */
    method Trim(count: seq<ChatMessage> -> nat, sys: string, nCtx: int) returns (r: Result<seq<ChatMessage>, PyError>)
      modifies this`history
      ensures var fit := FirstFit(count, sys, old(history), nCtx - TokenBuffer, 0);
        (r.Ok? <==> fit.Some?)
        && (fit.Some? ==> history == old(history)[fit.value..] && r.value == Prompt(sys, history))
        && (fit.None? ==>
              (history == [] && r.Err? && r.error.ValueError?
               && Text.StartsWith(r.error.message, "No commands fit in " + Text.Decimal(nCtx) + " tokens")))
      ensures old(history) == [] ==> r == Err(ValueError(NoFit(nCtx, None, None)))
    {
      var limit := nCtx - TokenBuffer;
      ghost var h0 := history;
      var removed := 0;
      var initial: Option<nat> := None;
      var tokens: Option<nat> := None;
      while history != []
        invariant removed <= |h0| && history == h0[removed..]
        invariant FirstFit(count, sys, h0, limit, 0) == FirstFit(count, sys, h0, limit, removed)
        invariant h0 == [] ==> initial.None? && tokens.None?
        decreases |history|
      {
        var prompt := Prompt(sys, history);
        var t := count(prompt);
        tokens := Some(t);
        if initial.None? || initial.value == 0 {
          initial := Some(t);
        }
        if t <= limit {
          return Ok(prompt);
        }
        removed := removed + 1;
        history := history[1..];
      }
      r := Err(ValueError(NoFit(nCtx, initial, tokens)));
    }

    /**
     * `get_commands` (server/llama_chat.py:116-124): the prompt's error
     * propagates; otherwise the model's reply, validated (`reply`), is
     * returned or its `ValidationError` re-raised.
     */
    method GetCommands(count: seq<ChatMessage> -> nat, nCtx: int, reply: Result<seq<ClientShell.Command>, PyError>)
      returns (r: Result<seq<ClientShell.Command>, PyError>)
      modifies this`history
      ensures SystemMessage().Ok? ==>
        (var fit := FirstFit(count, SystemMessage().value, old(history), nCtx - TokenBuffer, 0);
         (fit.Some? ==> r == reply && history == old(history)[fit.value..])
         && (fit.None? ==> r.Err? && r.error.ValueError? && history == []))
      ensures SystemMessage().Err? ==> r == Err(SystemMessage().error) && history == old(history)
    {
      var prompt := GetPrompt(count, nCtx);
      if prompt.Err? {
        return Err(prompt.error);
      }
      r := reply;
    }
  }

  /** A prompt that `_get_prompt` returns fits, keeps the newest entries in order, and drops no more than it must. */
  lemma TrimmedPrompt(count: seq<ChatMessage> -> nat, sys: string, h: seq<CommandResult>, nCtx: int)
    requires FirstFit(count, sys, h, nCtx - TokenBuffer, 0).Some?
    ensures var j := FirstFit(count, sys, h, nCtx - TokenBuffer, 0).value;
      var p := Prompt(sys, h[j..]);
      count(p) <= nCtx - TokenBuffer && h[j..] != []
      && p == [System(sys)] + FromCommands(h)[2 * j..]
      && forall i | 0 <= i < j :: count(Prompt(sys, h[i..])) > nCtx - TokenBuffer
  {
    var limit := nCtx - TokenBuffer;
    var j := FirstFit(count, sys, h, limit, 0).value;
    assert h[j..] != [] && FitsFrom(count, sys, h, limit, j)
      && forall i | 0 <= i < j :: !FitsFrom(count, sys, h, limit, i) by {
      FirstFitFacts(count, sys, h, limit, 0);
    }
    assert Prompt(sys, h[j..]) == [System(sys)] + FromCommands(h)[2 * j..] by {
      FromCommandsSuffix(h, j);
    }
    forall i | 0 <= i < j
      ensures count(Prompt(sys, h[i..])) > limit
    {
      assert !FitsFrom(count, sys, h, limit, i);
    }
  }
}
