/**
 * The server's side of a session (server/server.py): the SYN/NOP/ACK
 * handshake, the initial commands, batches of commands each answered by one
 * result, and the closing of the listening socket.
 *
 * The wire is a sequence of events; what the client will send on a
 * connection is an input (`incoming`), already decoded into message kinds,
 * and so is what the model proposes after each prompt (`llm`). Every
 * `get_commands` call takes the next element of `llm`; when `llm` runs out
 * the model stops, where the program would go on asking.
 */
module Server {
  import opened Wrappers
  import opened Exceptions
  import opened ClientShell
  import Env

  /** What a received message validates as. `FinMessage` is not part of the model: a FIN is taken to validate wherever a message is expected. */
  datatype Kind = Syn | Nop | Ack | Fin | Reply(result: AnyResult) | Invalid

  /** A received message: its JSON text and what it decodes to. */
  datatype Msg = Msg(raw: string, kind: Kind)

  /** The type argument of `_expect`. */
  datatype Want = SynOrNop | AckOnly | AnyResultWant

  datatype Outgoing = AckOut | CommandOut(command: Command)

  datatype Event = Sent(out: Outgoing) | Received(msg: Msg)

  /** What `_send_commands` is handed: `AnyCommands`, read through `.root`, or a plain list of strings. */
  datatype Batch = Commands(root: seq<Command>) | BareList(items: seq<string>)

  /** `INITIAL_COMMANDS` (server/const.py:12-18). */
  const InitialCommandTexts: seq<string> :=
    ["ls -la", "cat app.py", "echo \"Hello, world!\" > hello.txt", "cat hello.txt", "cat system.md"]

  /** `INITIAL_COMMANDS` as `_initial_commands` passes it: a bare list. */
  const InitialCommandsAsWritten: Batch := BareList(InitialCommandTexts)

  /** The initial commands as a batch of shell commands, which `.root` can read. */
  const InitialBatch: Batch :=
    Commands(seq(|InitialCommandTexts|, i requires 0 <= i < |InitialCommandTexts| => ShellCommand(InitialCommandTexts[i], None)))

  /** `llm_commands.root`. */
  function RootOf(b: Batch): (r: Result<seq<Command>, PyError>)
    ensures r.Ok? <==> b.Commands?
    ensures r.Ok? ==> r.value == b.root
  {
    if b.Commands? then Ok(b.root) else Err(OtherError("'list' object has no attribute 'root'"))
  }

  /** As written, the initial batch has no `.root`: sending it fails before anything is sent. */
  lemma InitialCommandsFail()
    ensures RootOf(InitialCommandsAsWritten) == Err(OtherError("'list' object has no attribute 'root'"))
  {
  }

  /** The corrected batch holds the five commands, in order, each a shell command. */
  lemma InitialBatchCommands()
    ensures RootOf(InitialBatch).Ok?
    ensures var cmds := RootOf(InitialBatch).value;
      |cmds| == 5 && forall i | 0 <= i < 5 :: cmds[i] == ShellCommand(InitialCommandTexts[i], None)
  {
  }

  predicate Validates(k: Kind, w: Want) {
    k.Fin? ||
    match w
    case SynOrNop => k.Syn? || k.Nop?
    case AckOnly => k.Ack?
    case AnyResultWant => k.Reply?
  }

  /**
   * `_expect` (server/server.py:121-129) on one received message: `expect`
   * rejects a message that does not validate (`ValueError` for a union, the
   * class's own `ValidationError` for a single class); a FIN becomes
   * `ConnectionError`.
   */
  function ExpectOutcome(m: Msg, w: Want): (r: Result<Msg, PyError>)
    ensures r.Ok? <==> Validates(m.kind, w) && !m.kind.Fin?
    ensures r.Ok? ==> r.value == m
    ensures m.kind.Fin? ==> r == Err(ConnectionError("FIN received"))
  {
    if !Validates(m.kind, w) then
      (if w == AckOnly then Err(ValidationError) else Err(ValueError("Invalid object: " + m.raw)))
    else if m.kind.Fin? then Err(ConnectionError("FIN received"))
    else Ok(m)
  }

  predicate AllReplies(msgs: seq<Msg>) {
    forall i | 0 <= i < |msgs| :: msgs[i].kind.Reply?
  }

  /** The results carried by a run of replies. */
  function Results(msgs: seq<Msg>): (r: seq<AnyResult>)
  {
    if msgs == [] then []
    else
      var last := msgs[|msgs| - 1];
      Results(msgs[..|msgs| - 1]) + (if last.kind.Reply? then [last.kind.result] else [])
  }

  /** One result per message exactly when every message is a reply; otherwise fewer. */
  lemma {:induction false} ResultsCount(msgs: seq<Msg>)
    ensures |Results(msgs)| <= |msgs|
    ensures |Results(msgs)| == |msgs| <==> AllReplies(msgs)
  {
    if msgs != [] {
      var init := msgs[..|msgs| - 1];
      ResultsCount(init);
      assert forall i | 0 <= i < |init| :: init[i] == msgs[i];
    }
  }

  /** Each command sent, then its result received, in order. */
  function Exchange(cmds: seq<Command>, msgs: seq<Msg>): (r: seq<Event>)
    requires |cmds| == |msgs|
    ensures |r| == 2 * |cmds|
  {
    if cmds == [] then []
    else Exchange(cmds[..|cmds| - 1], msgs[..|msgs| - 1]) + [Sent(CommandOut(cmds[|cmds| - 1])), Received(msgs[|msgs| - 1])]
  }

  lemma ExchangeSnoc(cmds: seq<Command>, msgs: seq<Msg>, c: Command, m: Msg)
    requires |cmds| == |msgs|
    ensures Exchange(cmds + [c], msgs + [m]) == Exchange(cmds, msgs) + [Sent(CommandOut(c)), Received(m)]
  {
    assert (cmds + [c])[..|cmds|] == cmds;
    assert (msgs + [m])[..|msgs|] == msgs;
  }

  lemma WireSnoc(wire0: seq<Event>, exchanged: seq<Event>, sent: Event, received: Event)
    ensures wire0 + exchanged + [sent] + [received] == wire0 + (exchanged + [sent, received])
  {
  }

  lemma ResultsSnoc(msgs: seq<Msg>, m: Msg)
    requires m.kind.Reply?
    ensures Results(msgs + [m]) == Results(msgs) + [m.kind.result]
  {
    assert (msgs + [m])[..|msgs|] == msgs;
  }

  /** Index of the last shell result in a batch. */
  function LastShell(results: seq<AnyResult>): (r: Option<nat>)
    ensures r.Some? ==> r.value < |results| && results[r.value].ShellResult?
  {
    if results == [] then None
    else if results[|results| - 1].ShellResult? then Some(|results| - 1)
    else LastShell(results[..|results| - 1])
  }

  /** `_prompt` after one result: a shell result's prompt replaces it. */
  function NextPrompt(before: Option<string>, result: AnyResult): Option<string> {
    if result.ShellResult? then Some(result.prompt.prompt) else before
  }

  /** `_prompt` after a batch. */
  function LastPrompt(results: seq<AnyResult>, before: Option<string>): Option<string> {
    if results == [] then before
    else NextPrompt(LastPrompt(results[..|results| - 1], before), results[|results| - 1])
  }

  /** No shell result follows the one `LastShell` finds, and it finds none only when there is none. */
  lemma {:induction false} LastShellIsLast(results: seq<AnyResult>)
    ensures LastShell(results).None? ==> forall i | 0 <= i < |results| :: !results[i].ShellResult?
    ensures LastShell(results).Some? ==> forall i | LastShell(results).value < i < |results| :: !results[i].ShellResult?
  {
    if results != [] && !results[|results| - 1].ShellResult? {
      var init := results[..|results| - 1];
      LastShellIsLast(init);
      assert forall i | 0 <= i < |init| :: init[i] == results[i];
    }
  }

  lemma LastPromptSnoc(results: seq<AnyResult>, x: AnyResult, before: Option<string>)
    ensures LastPrompt(results + [x], before) == NextPrompt(LastPrompt(results, before), x)
  {
    assert (results + [x])[..|results|] == results;
  }

  /** The prompt after a batch is the last shell result's, or the one before it when the batch has none. */
  lemma {:induction false} LastPromptIsLast(results: seq<AnyResult>, before: Option<string>)
    ensures LastPrompt(results, before) == match LastShell(results)
      case None => before
      case Some(j) => Some(results[j].prompt.prompt)
  {
    if results != [] {
      LastPromptIsLast(results[..|results| - 1], before);
    }
  }

  /** One connection handed to `serve`: what the client sends, `LLAMA_SHOW_INTRO`, and what the model proposes. */
  datatype Connection = Connection(incoming: seq<Msg>, showIntro: Option<string>, llm: seq<Result<Batch, PyError>>)

  /** `get_commands` failures that the command loop retries: `ValueError`, and pydantic's `ValidationError`, which is one. */
  predicate Retried(e: PyError) {
    e.ValueError? || e.ValidationError?
  }

  class Server {
    /** `_socket is not None`. */
    var socketOpen: bool
    /** Whether the operating system refuses to shut the socket down (`OSError`). */
    var shutdownFails: bool
    var initialized: bool
    var introDone: bool
    var prompt: Option<string>
    /** `terminal.suspended`. */
    var suspended: bool
    /** What the client has yet to send on the current connection. */
    var inbox: seq<Msg>
    var wire: seq<Event>
    /** The batches handed to `append_commands`, in order. */
    var committed: seq<seq<AnyResult>>

    constructor (shutdownFails: bool)
      ensures socketOpen && this.shutdownFails == shutdownFails
      ensures !initialized && !introDone && prompt.None? && !suspended
      ensures inbox == [] && wire == [] && committed == []
    {
      socketOpen, this.shutdownFails := true, shutdownFails;
      initialized, introDone, prompt, suspended := false, false, None, false;
      inbox, wire, committed := [], [], [];
    }

    /**
     * `cleanup` (server/server.py:63-72): the socket is closed and dropped
     * unless the OS refuses; on a closed server it does nothing, so calling
     * it twice is the same as calling it once.
     */
    method Cleanup()
      modifies this`socketOpen
      ensures socketOpen == (old(socketOpen) && shutdownFails)
    {
      if socketOpen && !shutdownFails {
        socketOpen := false;
      }
    }

    /** `_expect` (server/server.py:121-129): read one message; a FIN closes the server before `ConnectionError`. */
    method Expect(w: Want) returns (r: Result<Msg, PyError>)
      modifies this`inbox, this`wire, this`socketOpen
      ensures old(inbox) == [] ==> r == Err(ConnectionError("Connection closed")) && inbox == [] && wire == old(wire)
      ensures old(inbox) != [] ==>
        (r == ExpectOutcome(old(inbox)[0], w) && inbox == old(inbox)[1..] && wire == old(wire) + [Received(old(inbox)[0])])
      ensures socketOpen == (old(socketOpen) && !(old(inbox) != [] && old(inbox)[0].kind.Fin? && !shutdownFails))
    {
      if inbox == [] {
        return Err(ConnectionError("Connection closed"));
      }
      var m := inbox[0];
      inbox := inbox[1..];
      wire := wire + [Received(m)];
      r := ExpectOutcome(m, w);
      if m.kind.Fin? {
        Cleanup();
      }
    }

    /**
     * The first `i` commands of a batch have been sent and answered, in
     * order, by replies from `inbox0`; `results` holds their results and
     * `_prompt` has followed them from `prompt0`.
     */
    ghost predicate Answered(cmds: seq<Command>, i: nat, inbox0: seq<Msg>, results: seq<AnyResult>,
                             wire0: seq<Event>, prompt0: Option<string>)
      reads this
    {
      i <= |cmds| && i <= |inbox0| && inbox == inbox0[i..]
      && wire == wire0 + Exchange(cmds[..i], inbox0[..i])
      && results == Results(inbox0[..i]) && |results| == i
      && prompt == LastPrompt(results, prompt0)
    }

    /** One round of `_send_commands`: send the next command and read its result. */
    method Step(cmds: seq<Command>, i: nat, ghost inbox0: seq<Msg>, results: seq<AnyResult>,
                ghost wire0: seq<Event>, ghost prompt0: Option<string>) returns (r: Result<(), PyError>, next: seq<AnyResult>)
      requires i < |cmds| && Answered(cmds, i, inbox0, results, wire0, prompt0)
      modifies this`inbox, this`wire, this`socketOpen, this`prompt
      ensures old(wire) <= wire
      ensures socketOpen ==> old(socketOpen)
      ensures r.Ok? ==> Answered(cmds, i + 1, inbox0, next, wire0, prompt0)
    {
      ghost var exchanged := Exchange(cmds[..i], inbox0[..i]);
      var sent := Sent(CommandOut(cmds[i]));
      wire := wire + [sent];
      var m := Expect(AnyResultWant);
      if m.Err? {
        return Err(m.error), results;
      }
      assert m.value == inbox0[i] && inbox == inbox0[i + 1..] && wire == wire0 + exchanged + [sent] + [Received(m.value)];
      assert wire == wire0 + Exchange(cmds[..i + 1], inbox0[..i + 1]) by {
        assert inbox0[..i + 1] == inbox0[..i] + [m.value];
        assert cmds[..i + 1] == cmds[..i] + [cmds[i]];
        ExchangeSnoc(cmds[..i], inbox0[..i], cmds[i], m.value);
        WireSnoc(wire0, exchanged, sent, Received(m.value));
      }
      assert results + [m.value.kind.result] == Results(inbox0[..i + 1]) by {
        assert inbox0[..i + 1] == inbox0[..i] + [m.value];
        ResultsSnoc(inbox0[..i], m.value);
      }
      LastPromptSnoc(results, m.value.kind.result, prompt0);
      prompt := NextPrompt(prompt, m.value.kind.result);
      next := results + [m.value.kind.result];
      r := Ok(());
    }

    /**
     * `_send_commands` (server/server.py:131-151): each command is sent and
     * its result awaited before the next; the results are committed to the
     * history only once the whole batch has been answered, and `_prompt`
     * follows the shell results as they arrive.
     */
    method SendCommands(batch: Batch) returns (r: Result<(), PyError>)
      modifies this`inbox, this`wire, this`socketOpen, this`prompt, this`committed
      ensures old(wire) <= wire
      ensures socketOpen ==> old(socketOpen)
      ensures batch.BareList? ==> r == Err(RootOf(batch).error) && wire == old(wire) && inbox == old(inbox)
      ensures r.Ok? ==>
        (batch.Commands? && |batch.root| <= |old(inbox)|
         && |Results(old(inbox)[..|batch.root|])| == |batch.root| && inbox == old(inbox)[|batch.root|..]
         && wire == old(wire) + Exchange(batch.root, old(inbox)[..|batch.root|])
         && committed == old(committed) + [Results(old(inbox)[..|batch.root|])]
         && prompt == LastPrompt(Results(old(inbox)[..|batch.root|]), old(prompt)))
      ensures r.Err? ==> committed == old(committed)
    {
      var root := RootOf(batch);
      if root.Err? {
        return Err(root.error);
      }
      var cmds := root.value;
      ghost var inbox0, wire0 := inbox, wire;
      var results: seq<AnyResult> := [];
      for i := 0 to |cmds|
        invariant Answered(cmds, i, inbox0, results, wire0, old(prompt))
        invariant committed == old(committed)
        invariant old(wire) <= wire
        invariant socketOpen ==> old(socketOpen)
      {
        r, results := Step(cmds, i, inbox0, results, wire0, old(prompt));
        if r.Err? {
          return;
        }
      }
      assert cmds[..|cmds|] == cmds;
      committed := committed + [results];
      r := Ok(());
    }

    /**
     * `_initial_commands` (server/server.py:107-114): the terminal is
     * suspended unless `LLAMA_SHOW_INTRO` is set; the batch is sent only on
     * a server that has not sent it yet, which then records that it has.
     * The first successful call sends every command of the batch, in order,
     * and commits their results as one history entry.
     */
    method InitialCommands(showIntro: Option<string>, batch: Batch) returns (r: Result<(), PyError>)
      modifies this`inbox, this`wire, this`socketOpen, this`prompt, this`committed, this`initialized, this`suspended
      ensures old(wire) <= wire
      ensures socketOpen ==> old(socketOpen)
      ensures old(initialized) ==> r == Ok(()) && wire == old(wire) && inbox == old(inbox) && committed == old(committed) && initialized
      ensures r.Ok? ==> initialized && !suspended
      ensures r.Err? ==>
        (!old(initialized) && !initialized && suspended == (old(suspended) || !Env.EnvBool(showIntro, false))
         && committed == old(committed))
      ensures !old(initialized) && batch.BareList? ==> r == Err(RootOf(batch).error) && wire == old(wire)
      ensures !old(initialized) && r.Ok? ==>
        (batch.Commands? && |batch.root| <= |old(inbox)| && inbox == old(inbox)[|batch.root|..]
         && wire == old(wire) + Exchange(batch.root, old(inbox)[..|batch.root|])
         && committed == old(committed) + [Results(old(inbox)[..|batch.root|])]
         && prompt == LastPrompt(Results(old(inbox)[..|batch.root|]), old(prompt)))
    {
      if !Env.EnvBool(showIntro, false) {
        suspended := true;
      }
      if !initialized {
        r := SendCommands(batch);
        if r.Err? {
          return;
        }
        initialized := true;
      }
      suspended := false;
      r := Ok(());
    }

    /** The SYN/NOP and ACK exchange that opens a connection. */
    method Handshake(incoming: seq<Msg>) returns (r: Result<bool, PyError>)
      modifies this`inbox, this`wire, this`socketOpen
      ensures old(wire) <= wire
      ensures socketOpen ==> old(socketOpen)
      ensures incoming != [] && incoming[0].kind.Nop? ==> r == Ok(false) && wire == old(wire) + [Received(incoming[0])]
      ensures incoming != [] && incoming[0].kind.Syn? ==> |wire| >= |old(wire)| + 2 && wire[|old(wire)| + 1] == Sent(AckOut)
      ensures r == Ok(true) <==> |incoming| >= 2 && incoming[0].kind.Syn? && incoming[1].kind.Ack?
      ensures r == Ok(true) ==>
        wire == old(wire) + [Received(incoming[0]), Sent(AckOut), Received(incoming[1])] && inbox == incoming[2..]
      ensures r != Ok(true) ==> forall i | |old(wire)| <= i < |wire| :: !(wire[i].Sent? && wire[i].out.CommandOut?)
    {
      inbox := incoming;
      var first := Expect(SynOrNop);
      if first.Err? {
        return Err(first.error);
      }
      if first.value.kind.Nop? {
        return Ok(false);
      }
      wire := wire + [Sent(AckOut)];
      var second := Expect(AckOnly);
      if second.Err? {
        return Err(second.error);
      }
      r := Ok(true);
    }

    /**
     * `_handle_connection` (server/server.py:74-105): the first message must
     * be SYN or NOP; a NOP ends the connection with no reply; a SYN is
     * answered with ACK and must be followed by an ACK before any command
     * goes out. The intro runs on the first completed handshake; then
     * batches are sent until the connection fails.
     */
    method HandleConnection(incoming: seq<Msg>, showIntro: Option<string>, llm: seq<Result<Batch, PyError>>)
      returns (r: Result<(), PyError>)
      modifies this`inbox, this`wire, this`socketOpen, this`prompt, this`committed, this`initialized, this`suspended, this`introDone
      ensures old(wire) <= wire
      ensures !old(socketOpen) ==> r == Err(ConnectionError("Socket is closed")) && wire == old(wire) && inbox == old(inbox)
      ensures old(socketOpen) && incoming != [] && incoming[0].kind.Nop? ==> r == Ok(()) && wire == old(wire) + [Received(incoming[0])]
      ensures old(socketOpen) && incoming != [] && incoming[0].kind.Syn? ==> |wire| >= |old(wire)| + 2 && wire[|old(wire)| + 1] == Sent(AckOut)
      ensures (exists i | |old(wire)| <= i < |wire| :: wire[i].Sent? && wire[i].out.CommandOut?) ==>
        (|incoming| >= 2 && incoming[0].kind.Syn? && incoming[1].kind.Ack?
         && old(wire) + [Received(incoming[0]), Sent(AckOut), Received(incoming[1])] <= wire)
      ensures introDone ==> old(introDone) || (|incoming| >= 2 && incoming[0].kind.Syn? && incoming[1].kind.Ack? && initialized)
      ensures old(introDone) ==> introDone
      ensures old(initialized) ==> initialized
    {
      if !socketOpen {
        return Err(ConnectionError("Socket is closed"));
      }
      var shaken := Handshake(incoming);
      if shaken.Err? {
        return Err(shaken.error);
      }
      if !shaken.value {
        return Ok(());
      }
      ghost var start := wire;
      if !introDone {
        r := InitialCommands(showIntro, InitialBatch);
        if r.Err? {
          return;
        }
      }
      introDone := true;
      for k := 0 to |llm|
        invariant start <= wire
        invariant introDone && (old(introDone) || initialized)
        invariant old(initialized) ==> initialized
      {
        if llm[k].Err? {
          if Retried(llm[k].error) {
            continue;
          }
          return Err(llm[k].error);
        }
        var sent := SendCommands(llm[k].value);
        if sent.Err? {
          if sent.error.ConnectionError? {
            break;
          }
          return Err(sent.error);
        }
      }
      r := Ok(());
    }

    /**
     * `serve` (server/server.py:54-61): connections are handled while the
     * socket is open; a connection that ends in `ConnectionError` is
     * dropped and the next one accepted, any other exception ends `serve`.
     * Returns how many connections were handled.
     */
    method Serve(conns: seq<Connection>) returns (r: Result<nat, PyError>)
      modifies this`inbox, this`wire, this`socketOpen, this`prompt, this`committed, this`initialized, this`suspended, this`introDone
      ensures !old(socketOpen) ==> r == Ok(0) && wire == old(wire)
      ensures r.Ok? ==> r.value <= |conns| && (r.value == |conns| || !socketOpen)
      ensures r.Err? ==> !r.error.ConnectionError?
      ensures old(wire) <= wire
    {
      var k := 0;
      while socketOpen && k < |conns|
        invariant k <= |conns|
        invariant old(wire) <= wire
        invariant !old(socketOpen) ==> k == 0 && wire == old(wire)
      {
        var c := conns[k];
        var done := HandleConnection(c.incoming, c.showIntro, c.llm);
        if done.Err? && !done.error.ConnectionError? {
          return Err(done.error);
        }
        k := k + 1;
      }
      r := Ok(k);
    }
  }
}
