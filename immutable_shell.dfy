/**
 * The agent's own shell (immutable/shell.py): one bash process fed through
 * stdin, whose prompt is fetched through a FIFO after every command.
 *
 * The parser (bashlex) is reduced to the exception it raises, if any; the
 * `PS1` environment variable, the FIFO path and what bash writes into the
 * FIFO within `EXIT_TIMEOUT` (nothing, when it does not finish) are inputs.
 */
module ImmutableShell {
  import opened Wrappers
  import opened Exceptions
  import opened Output
  import Prompts

  /** `Ps1` (immutable/typedefs.py:8-16): the usertype is kept as the raw marker. */
  datatype Ps1 = Ps1(ps1: string, exitCode: nat, user: string, host: string, cwd: string, usertype: char)

  /** `CommandResult` (immutable/typedefs.py:22-29): the prompt sits under the key `ps1`. */
  datatype CommandResult = CommandResult(command: string, stdout: seq<OutputLine>, stderr: seq<OutputLine>, exitCode: int, ps1: Ps1)

  /** The most `_wait_done` reads from the FIFO in one `os.read`. */
  const FifoReadSize := 1024

  /** `_parse_ps1` (immutable/shell.py:120-141). */
  function ParsePs1(s: string): (r: Result<Ps1, PyError>)
    ensures r.Err? <==> Prompts.Match(s).None?
    ensures r.Err? ==> r.error == ValueError("PS1 prompt does not match expected format: " + s)
    ensures r.Ok? ==> var f := Prompts.Match(s).value;
      r.value == Ps1(s, f.exitCode, f.user, f.host, f.cwd, f.usertype)
  {
    match Prompts.Match(s)
    case None => Err(ValueError("PS1 prompt does not match expected format: " + s))
    case Some(f) => Ok(Ps1(s, f.exitCode, f.user, f.host, f.cwd, f.usertype))
  }

  /** What bash prints for a prompt is read back field for field, the marker unmapped. */
  lemma ParsePs1RoundTrip(f: Prompts.Fields)
    requires Prompts.Unambiguous(f)
    ensures var s := Prompts.Render(f);
      ParsePs1(s) == Ok(Ps1(s, f.exitCode, f.user, f.host, f.cwd, f.usertype))
      && (f.usertype == '$' || f.usertype == '#')
  {
    Prompts.RenderMatches(f);
  }

  /** Any parsed prompt: the exit code is the leading digits, and the whole input is kept. */
  lemma ParsePs1Fields(s: string)
    requires ParsePs1(s).Ok?
    ensures var p := ParsePs1(s).value;
      p.ps1 == s && (p.usertype == '$' || p.usertype == '#')
      && exists d :: 0 < d < |s| && Text.AllDigits(s[..d]) && s[d] == ' ' && Text.DigitsValue(s[..d]) == p.exitCode
  {
    var f := Prompts.Match(s).value;
    var c := Prompts.Body(s);
    var d := Prompts.DigitRun(c);
    assert ParsePs1(s).value == Ps1(s, f.exitCode, f.user, f.host, f.cwd, f.usertype);
    assert 0 < d < |c| && c[d] == ' ' && Text.DigitsValue(c[..d]) == f.exitCode && f.usertype in "$#" by {
      Prompts.MatchSound(s);
      SpaceAfterDigits(c, d, f.user, f.host, f.cwd, f.usertype);
    }
    assert c[..d] == s[..d];
    assert s[d] == c[d];
  }

  lemma SpaceAfterDigits(c: string, d: nat, user: string, host: string, cwd: string, u: char)
    requires d <= |c| && c == c[..d] + " " + user + "@" + host + ":" + cwd + " " + [u] + " "
    ensures d < |c| && c[d] == ' '
  {
    var a := c[..d] + " ";
    assert c[..d + 1] == a;
  }

  /** `ps1.replace('"', '\\"')`. */
  function EscapeQuotes(s: string): (r: string)
    ensures |r| >= |s|
    ensures s != [] ==> r != [] && r[0] != '"'
  {
    if s == [] then []
    else (if s[0] == '"' then "\\\"" else [s[0]]) + EscapeQuotes(s[1..])
  }

  /** Reads `\"` back as `"`, left to right. */
  function UnescapeQuotes(t: string): string {
    if |t| >= 2 && t[0] == '\\' && t[1] == '"' then "\"" + UnescapeQuotes(t[2..])
    else if t == [] then []
    else [t[0]] + UnescapeQuotes(t[1..])
  }

  /** The escaping loses nothing: undoing it gives back the prompt template. */
  lemma {:induction false} EscapeRoundTrip(s: string)
    ensures UnescapeQuotes(EscapeQuotes(s)) == s
  {
    if s != [] {
      var rest := EscapeQuotes(s[1..]);
      EscapeRoundTrip(s[1..]);
      if s[0] == '"' {
        assert EscapeQuotes(s) == "\\\"" + rest;
        assert (EscapeQuotes(s))[2..] == rest;
      } else {
        var t := [s[0]] + rest;
        assert EscapeQuotes(s) == t;
        assert t[1..] == rest;
        assert !(|t| >= 2 && t[0] == '\\' && t[1] == '"');
      }
    }
  }

  /** Every quote in the escaped text is preceded by a backslash. */
  lemma {:induction false} EscapedQuotes(s: string, i: nat)
    requires i < |EscapeQuotes(s)| && EscapeQuotes(s)[i] == '"'
    ensures i > 0 && EscapeQuotes(s)[i - 1] == '\\'
  {
    if s != [] {
      var head := if s[0] == '"' then "\\\"" else [s[0]];
      var rest := EscapeQuotes(s[1..]);
      assert EscapeQuotes(s) == head + rest;
      if i >= |head| {
        assert rest[i - |head|] == '"';
        EscapedQuotes(s[1..], i - |head|);
      }
    }
  }

  /**
   * The line written after the command (immutable/shell.py:167-170): a
   * subshell that restores the exit code, sets the prompt, and appends its
   * expansion to the FIFO.
   */
  function Probe(ps1: string, fifo: string): (r: string)
    ensures Text.StartsWith(r, "(R=\"$?\"; PS1=\"")
  {
    "(R=\"$?\"; PS1=\"" + EscapeQuotes(ps1) + "\"; (exit \"$R\"); echo -n \"${PS1@P}\" >> " + fifo + "; exit \"$R\")"
  }

  /** What one `os.read(fd, 1024)` returns of the prompt bash wrote into the FIFO. */
  function FifoRead(written: string): (r: string)
    ensures |r| <= FifoReadSize && Text.StartsWith(written, r)
    ensures |written| <= FifoReadSize ==> r == written
  {
    if |written| <= FifoReadSize then written else written[..FifoReadSize]
  }

  /**
   * The result `run` returns once bash wrote `written` into the FIFO, with
   * `out` and `err` queued: the prompt read back and parsed, the queues'
   * lines, and the prompt's exit code; or the `ValueError` of a prompt that
   * does not match.
   */
  function Answer(command: string, written: string, out: seq<OutputLine>, err: seq<OutputLine>): (r: Result<CommandResult, PyError>)
    ensures r.Ok? <==> Prompts.Match(FifoRead(written)).Some?
    ensures r.Ok? ==>
      (r.value.command == command && r.value.stdout == out && r.value.stderr == err
       && r.value.ps1.ps1 == FifoRead(written) && r.value.exitCode == r.value.ps1.exitCode)
    ensures r.Err? ==> r.error == ValueError("PS1 prompt does not match expected format: " + FifoRead(written))
  {
    match ParsePs1(FifoRead(written))
    case Err(e) => Err(e)
    case Ok(p) => Ok(CommandResult(command, out, err, p.exitCode, p))
  }

  /**
   * The shell as `run` sees it: the lines queued by the reader threads and
   * what has been written to bash's stdin.
   */
  class Shell {
    var qStdout: seq<OutputLine>
    var qStderr: seq<OutputLine>
    var stdin: seq<string>

    constructor ()
      ensures qStdout == [] && qStderr == [] && stdin == []
    {
      qStdout, qStderr, stdin := [], [], [];
    }

    /** `_get_stdout` (immutable/shell.py:103-107): all queued lines in order; the queue is left empty. */
    method GetStdout() returns (lines: seq<OutputLine>)
      modifies this
      ensures lines == old(qStdout) && qStdout == []
      ensures qStderr == old(qStderr) && stdin == old(stdin)
    {
      lines := qStdout;
      qStdout := [];
    }

    /** `_get_stderr` (immutable/shell.py:109-113). */
    method GetStderr() returns (lines: seq<OutputLine>)
      modifies this
      ensures lines == old(qStderr) && qStderr == []
      ensures qStdout == old(qStdout) && stdin == old(stdin)
    {
      lines := qStderr;
      qStderr := [];
    }

    /** `_put_stdin`. */
    method PutStdin(line: string)
      modifies this
      ensures stdin == old(stdin) + [line]
      ensures qStdout == old(qStdout) && qStderr == old(qStderr)
    {
      stdin := stdin + [line];
    }

    /**
     * `_wait_done` (immutable/shell.py:143-158): the prompt bash wrote, at
     * most one read's worth; when the FIFO stays silent for `EXIT_TIMEOUT`,
     * the queued output is drained into the log and `TimeoutError` is
     * raised. Nothing is killed and stdin is left as it is.
     */
    method WaitDone(written: Option<string>) returns (r: Result<string, PyError>)
      modifies this
      ensures stdin == old(stdin)
      ensures written.None? ==> r == Err(TimeoutError("Shell did not finish in time")) && qStdout == [] && qStderr == []
      ensures written.Some? ==> r.Ok? && qStdout == old(qStdout) && qStderr == old(qStderr)
      ensures written.Some? ==> r.value == FifoRead(written.value)
    {
      if written.None? {
        var _ := GetStdout();
        var _ := GetStderr();
        return Err(TimeoutError("Shell did not finish in time"));
      }
      var s := written.value;
      r := Ok(if |s| <= FifoReadSize then s else s[..FifoReadSize]);
    }

    /** `enqueue_output` (immutable/shell.py:27-30) on both pipes: the reader threads queue bash's lines in the order printed. */
    method Enqueue(out: seq<OutputLine>, err: seq<OutputLine>)
      modifies this
      ensures qStdout == old(qStdout) + out && qStderr == old(qStderr) + err && stdin == old(stdin)
    {
      qStdout := qStdout + out;
      qStderr := qStderr + err;
    }

    /**
     * `run` (immutable/shell.py:160-182). The command is lexed before
     * anything is written and a lexer error propagates; then the command
     * and the prompt probe go to stdin in that order; the result carries
     * the input command, the drained queues, and the exit code of the
     * prompt the probe produced. `out` and `err` are the lines the reader
     * threads queue once the command is written, before the prompt is read.
     */
    method Run(command: string, lexError: Option<PyError>, envPs1: Option<string>, fifo: string,
               out: seq<OutputLine>, err: seq<OutputLine>, written: Option<string>)
      returns (r: Result<CommandResult, PyError>)
      modifies this
      ensures lexError.Some? ==>
        (r == Err(lexError.value) && stdin == old(stdin) && qStdout == old(qStdout) && qStderr == old(qStderr))
      ensures lexError.None? && envPs1.None? ==>
        (r == Err(KeyError("PS1")) && stdin == old(stdin) + [command]
         && qStdout == old(qStdout) + out && qStderr == old(qStderr) + err)
      ensures lexError.None? && envPs1.Some? ==> stdin == old(stdin) + [command, Probe(envPs1.value, fifo)]
      ensures lexError.None? && envPs1.Some? && written.None? ==>
        r == Err(TimeoutError("Shell did not finish in time")) && qStdout == [] && qStderr == []
      ensures lexError.None? && envPs1.Some? && written.Some? && r.Err? ==>
        qStdout == old(qStdout) + out && qStderr == old(qStderr) + err
      ensures lexError.None? && envPs1.Some? && written.Some? ==>
        r == Answer(command, written.value, old(qStdout) + out, old(qStderr) + err)
      ensures r.Ok? ==> qStdout == [] && qStderr == []
      ensures r.Ok? ==>
        (lexError.None? && envPs1.Some? && written.Some?
         && Prompts.Match(r.value.ps1.ps1).Some? && ParsePs1(r.value.ps1.ps1) == Ok(r.value.ps1)
         && Text.StartsWith(written.value, r.value.ps1.ps1))
      ensures lexError.None? && envPs1.Some? && written.Some? && |written.value| <= FifoReadSize ==>
        (r.Ok? <==> ParsePs1(written.value).Ok?)
    {
      if lexError.Some? {
        return Err(lexError.value);
      }
      PutStdin(command);
      Enqueue(out, err);
      if envPs1.None? {
        return Err(KeyError("PS1"));
      }
      PutStdin(Probe(envPs1.value, fifo));
      var ret := WaitDone(written);
      if ret.Err? {
        return Err(ret.error);
      }
      var ps1 := ParsePs1(ret.value);
      if ps1.Err? {
        return Err(ps1.error);
      }
      var out := GetStdout();
      var err := GetStderr();
      r := Ok(CommandResult(command, out, err, ps1.value.exitCode, ps1.value));
    }
  }

  /**
   * Reading a prompt-valued entry of a `CommandResult` by key, as the
   * dictionary lookup `result[key]` does: only `ps1` exists.
   */
  function Entry(r: CommandResult, key: string): (v: Result<Ps1, PyError>)
    ensures v.Ok? <==> key == "ps1"
    ensures v.Err? ==> v.error == KeyError(key)
  {
    if key == "ps1" then Ok(r.ps1) else Err(KeyError(key))
  }

  /** `result['prompt']['prompt']` as immutable/llama.py:65 and immutable/app.py:60,73 write it. */
  function PromptTextAsWritten(r: CommandResult): Result<string, PyError> {
    match Entry(r, "prompt")
    case Err(e) => Err(e)
    case Ok(p) => Ok(p.ps1)
  }

  /** The lookup as written fails on every result `run` can return. */
  lemma PromptLookupFails(r: CommandResult)
    ensures PromptTextAsWritten(r) == Err(KeyError("prompt"))
  {
  }

  /** The prompt text of a result, read from the key `run` stores it under. */
  function PromptText(r: CommandResult): string {
    Entry(r, "ps1").value.ps1
  }

  /** The corrected lookup gives back the prompt bash printed after the command. */
  lemma PromptTextOfRun(command: string, out: seq<OutputLine>, err: seq<OutputLine>, s: string)
    requires ParsePs1(s).Ok?
    ensures var p := ParsePs1(s).value;
      PromptText(CommandResult(command, out, err, p.exitCode, p)) == s
  {
  }
}
