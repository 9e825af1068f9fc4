# pocket-asi, modelled in Dafny

pocket-asi runs a language model inside a container, where it talks to a bash shell.
This project models the deterministic core of that system and proves what it promises.

**Bootstrap (`main.c`).** A small C program:
- lists `$POCKET_ASI_ROOT/*`;
- copies every file into an anonymous memory file and unlinks the original;
- writes a `{"name":fd,...}` index into a buffer whose size it counts by hand;
- exports the index as `POCKET_ASI_FILES`;
- finds the entry module named by `POCKET_ASI_LOADER`;
- execs the interpreter on `/proc/self/fd/N`.

It is modelled imperatively in `bootstrap.dfy`:
- the class `Os` holds the disk as a map, the memory-file table, the environment and an allocation budget;
- `malloc` failure is the budget running out;
- the `char*` arrays are Dafny arrays;
- every method is proved against a specification function (`FileToFdSpec`, `ConvertPrefix`, `PublishSpec`, `LaunchSpec`, `MainSpec`);
- lemmas about those functions state the end-to-end properties. These include byte accounting of the JSON buffer, the exec'd descriptor holding the loader's bytes, and files moved or left in place.

**Successor process.** It reads the index back through `fd_path` (`immutable/common.py`, `client/common.py`) and the import hook (`immutable/loader.py`). `fd_index.dfy` proves that parsing main.c's serialisation gives back the name→fd map. `loader.dfy` models the finder and loader.

**Client wire protocol.** Messages are JSON texts, each terminated by one NUL byte (`client/common.py`, `client/client.py`). `framing.dfy` models:
- the socket as a sequence of chunks still to arrive;
- the client's receive buffer as a field;
- the framing round trips, buffered reads in order, and one result per command.

**Shell harnesses.**
- `client_shell.dfy` models `client/shell.py`: the `_lex` classification, the prompt parser, queue draining, file commands over an abstract file map, and dispatch.
- `immutable_shell.dfy` models `immutable/shell.py`: the PS1 parser, queue draining, the probe and the order of writes in `run`.
- `prompt.dfy` models the prompt regular expression both share.

**Server side.**
- `server.dfy` models `server/server.py`: the SYN/NOP/ACK/FIN handshake, in-order batches, initial commands sent once, and idempotent cleanup.
- `llama_chat.dfy` models `server/llama_chat.py`: message interleaving, the system text, and trimming the history to the context window.

**Immutable app.**
- `immutable_llama.dfy` models `immutable/llama.py`: option merging, message assembly and the initial history.
- `app_cleanup.dfy` models `immutable/app.py`: the fixpoint command clean-up and prompt stripping.
- `output.dfy` models the timestamp ordering of logged output.

**Shared modules.**
- `env.dfy` models `env_bool` (`server/common.py`).
- `text.dfy` holds decimal rendering and parsing, and substring search.
- `wrappers.dfy` holds `Option`, `Result` and the Python exceptions.

Calls into the OS, sockets, the language model, bashlex and the tokenizer are not modelled as code. Each becomes a parameter or an input sequence:
- the glob result and the file contents are part of `OsState`;
- what the peer will send is a `Socket`'s pending chunks;
- bashlex's answer is a `Parsed` value;
- the model's replies are a sequence of results;
- the token count is a function parameter.

## Model

| member | source | states |
|---|---|---|
| Env.EnvBoolUnset | server/common.py:8-10 | with the variable unset the result is the default, since `str(default)` lower-cases to `true`/`false` |
| Env.EnvBoolSet | server/common.py:8-10 | a set value gives True exactly when it is `1` or `true` in any letter case |
| Env.EnvBoolExamples | server/common.py:10 | `TRUE`, `True`, `1` give True; `yes`, `0` and the empty string give False even with default True |
| Env.Lower | server/common.py:10 | lower-casing keeps the length and maps each ASCII capital to its small letter, nothing else |
| Text.DecimalRoundTrip | main.c:203 | the decimal rendering `%d` writes for a descriptor reads back as the same integer; it is non-empty, digits after an optional minus |
| Text.DecimalInjective | main.c:203 | two integers with the same decimal text are equal, so a path names one descriptor |
| Text.NatDigitsCanonical | main.c:184 | a natural number renders as digits with no leading zero, whose value is the number |
| Text.FindFrom | immutable/app.py:66 | the search returns the first index at or after the start where the pattern occurs, and none when there is no such index |
| Text.ContainsIff | immutable/app.py:66 | `prompt in command` holds exactly when the prompt occurs at some index |
| FdIndex.JsonBytesExact | main.c:152-160 | after k iterations `json_bytes` equals 3 plus the length of the first k pieces the serialisation loop writes |
| FdIndex.PieceLength | main.c:157-160 | each iteration's increment is the length of the member and comma that iteration writes |
| FdIndex.JsonBytesTotal | main.c:173-187 | the counted size equals the length of the serialised index plus one terminating byte, so every write stays in the buffer |
| FdIndex.JsonBytesMono | main.c:152-160 | the running count never decreases from one iteration to the next |
| FdIndex.JsonBytesStep | main.c:157-160 | one more iteration adds exactly the new entry's cost and depends on the earlier entries only |
| FdIndex.JsonBytesPrefix | main.c:152-160 | the count after k iterations depends only on the first k names and descriptors |
| FdIndex.IndexRoundTrip | main.c:179-187 | `json.loads` of main.c's index gives back the map from each name to its descriptor, for names needing no JSON escaping |
| FdIndex.MembersRoundTrip | main.c:181-186 | reading the members back adds every name→fd pair in listing order to the map being built |
| FdIndex.MemberParses | main.c:182-185 | one `"name":fd` member reads back as that pair and stops at the following comma or brace |
| FdIndex.EntriesLookup | immutable/common.py:9 | a name listed once more maps to the descriptor of its last occurrence |
| FdIndex.EntriesKeys | immutable/common.py:9 | the parsed index has exactly the listed names as keys |
| FdIndex.EntriesKeep | immutable/common.py:9 | an entry not overwritten by a later member keeps its value |
| FdIndex.FdPath | immutable/common.py:17-23 | a known name maps to `/proc/self/fd/` and its descriptor; an unknown one raises `FileNotFoundError('File not found: name')` |
| FdIndex.ImportIndex | immutable/common.py:9 | a missing `POCKET_ASI_FILES` raises `KeyError`; a parsable one gives its map |
| FdIndex.FdPathFromEnv | client/common.py:36-43 | without `POCKET_ASI_FILES` every lookup raises `KeyError` before the name is tried |
| FdIndex.FdPathAfterBootstrap | client/common.py:36-43 | after main.c exported its index, each listed name resolves to its own descriptor's path and every other name raises `FileNotFoundError` |
| FdIndex.RandomString | immutable/common.py:12-14 | the string has one character per draw, each an ASCII letter or digit |
| Bootstrap.UpToNul | main.c:113 | the bytes `strlen` counts: the longest NUL-free prefix, stopped by the first NUL if there is one |
| Bootstrap.UpToNulAt | main.c:113 | with the first NUL at n, the bytes written are exactly the first n |
| Bootstrap.UpToNulPadded | main.c:58-60 | the terminator `read_file` appends does not change what `strlen` sees |
| Bootstrap.FileToFdStopsAtNul | main.c:103-113 | a file holding a NUL is copied only up to it, so its memory file is shorter than the file |
| Bootstrap.FileToFdSpec | main.c:102-118 | converting a file changes only the disk, the memory files, the descriptor counter and the heap |
| Bootstrap.FileToFdFacts | main.c:102-118 | -1 leaves disk and memory files alone; a descriptor is the next free one, its memory file holds the bytes before the first NUL and the path is unlinked |
| Bootstrap.BasenameJoin | main.c:155 | the basename of `root/name` is `name` when `name` has no slash |
| Bootstrap.LsSpec | main.c:70-100 | listing changes nothing but the heap, which failures give back |
| Bootstrap.Slots | main.c:74-91 | the array `ls` returns holds one copied path per match, then the unset slot after the last |
| Bootstrap.LoopBound | main.c:153 | the loop stops at the first NULL slot with every slot before it a string, or never meets a NULL after only strings |
| Bootstrap.SentinelMissing | main.c:74 | as written, `files[count]` is never set, so the loop has no NULL to stop at |
| Bootstrap.SentinelPresent | main.c:74 | with the sentinel written the loop stops after exactly the listed paths |
| Bootstrap.ProcPathOverflow | main.c:203-204 | `/proc/self/fd/` and the digits need one byte more than is allocated; the corrected size holds them and the terminator |
| Bootstrap.ConvertShape | main.c:152-166 | the loop records one basename and one descriptor per path, allocates one copy each, and leaves environment, globs and directories alone |
| Bootstrap.ConvertStuck | main.c:155-157 | once a basename copy fails nothing further changes: the run is stuck at that state |
| Bootstrap.StepFacts | main.c:153-165 | one iteration appends one descriptor and applies that file's conversion exactly |
| Bootstrap.ConvertTracked | main.c:152-166 | descriptors are fresh and increasing; converted files are off disk with their bytes in memory; failed ones and unvisited ones stay |
| Bootstrap.ConvertLoader | main.c:162-165 | `loader_fd` is the descriptor of the last entry named like the loader, or -1 when none is |
| Bootstrap.ConvertAccounted | main.c:152-166 | after the loop each listed file is either moved into its memory file or, with fd -1, left on disk; unlisted files are untouched |
| Bootstrap.ConvertSucceeds | main.c:152-166 | with enough memory and descriptors and every listed file on disk, every conversion succeeds |
| Bootstrap.SetupFacts | main.c:144-150 | listing and allocation change only the heap and go on with exactly the glob's non-empty matches |
| Bootstrap.SetupStops | main.c:144-150 | the only way the setup phase stops is undefined behaviour from a failed allocation |
| Bootstrap.SaneNames | main.c:155 | for paths `root/name` with plain, slash-free, distinct names, the basenames are those names and distinct |
| Bootstrap.ConvertedNames | main.c:155-156 | the recorded names are the listed files' names in order, each plain and all distinct |
| Bootstrap.LoaderIndex | main.c:162-165 | a found loader is the listed `root/loader` entry and `loader_fd` is its recorded descriptor |
| Bootstrap.LoaderEntry | main.c:162-165 | the loader's memory file holds the loader file's bytes up to its first NUL |
| Bootstrap.IndexExported | main.c:195 | the exported index gives every listed name its recorded descriptor and `fd_path` resolves it |
| Bootstrap.MainNeedsEnv | main.c:126-140 | with `POCKET_ASI_ROOT`, `POCKET_ASI_LOADER` or `POCKET_ASI_PYTHON` unset, `main` returns 1 and the OS state is untouched |
| Bootstrap.MainWithoutLoader | main.c:153-171 | with no listed file named like the loader, `main` returns 1 (or meets undefined behaviour) without exporting the index, removing the root or unlinking `argv[0]`; the listed files it converted are already unlinked, and every unlisted file, `argv[0]` included, stays on disk unchanged |
| Bootstrap.MainLaunched | main.c:120-218 | a run that execs or returns 0 went through every phase, found the loader, exported the index and removed only `argv[0]` from disk afterwards in `main` with the NULL sentinel stored and the 15+digits path buffer of "## Findings" |
| Bootstrap.LaunchShape | main.c:203-217 | the launch removes `argv[0]` and execs `[python, "/proc/self/fd/" + loader_fd]`, or returns 0 when the interpreter is missing |
| Bootstrap.MainExecsLoader | main.c:120-218 | an exec runs the interpreter on the path `fd_path(loader)` gives, whose descriptor holds the loader's bytes up to the first NUL in `main` with the NULL sentinel stored and the 15+digits path buffer of "## Findings" |
| Bootstrap.MainMovesFiles | main.c:120-218 | after a launch the index names every listed file; each is either in its memory file and off disk, or at -1 and still on disk; nothing else changes in `main` with the NULL sentinel stored and the 15+digits path buffer of "## Findings" |
| Bootstrap.LaunchedIndex | main.c:179-195 | the exported index has exactly the listed names as keys, each with its descriptor |
| Bootstrap.MainReachesExec | main.c:120-218 | with the variables set, a sane listing including the loader, memory for seven allocations plus three per file, enough descriptors, and the interpreter present, `main` execs in `main` with the NULL sentinel stored and the 15+digits path buffer of "## Findings" |
| Bootstrap.PublishGoes | main.c:168-201 | with a loader found and memory for the index buffer and for the copy `setenv` keeps, publishing goes on, leaves one allocation to spare and the disk as it was |
| Bootstrap.LaunchExecs | main.c:203-215 | with the path buffer allocated and the interpreter on disk, the launch execs it on the loader's descriptor path |
| Bootstrap.Sprintf | main.c:184 | `sprintf` writes the text and a NUL at the offset and touches nothing after them |
| Bootstrap.Strlen | main.c:113 | `strlen` finds the first NUL, so the bytes before it are what `UpToNul` gives |
| Bootstrap.WriteMember | main.c:182-185 | one iteration writes that entry's member and comma after what is already there |
| Bootstrap.WriteMembers | main.c:181-186 | the loop writes all members after the brace and ends two bytes before the buffer's end |
| Bootstrap.WriteIndex | main.c:179-187 | the buffer ends up holding exactly the serialised index and its terminator |
| Bootstrap.Os.Malloc | main.c:173-177 | an allocation succeeds exactly while memory is left |
| Bootstrap.Os.Free | main.c:189-193 | freeing changes only the count of live blocks |
| Bootstrap.Os.PathJoin | main.c:30-40 | the result is `dir/filename` and its terminator, sized exactly; NULL when allocation fails |
| Bootstrap.Os.ReadFile | main.c:42-63 | a readable file comes back as its bytes plus a NUL; a missing file or failed allocation gives NULL |
| Bootstrap.Os.FileToFd | main.c:102-118 | the conversion does what `FileToFdSpec` says |
| Bootstrap.Os.LsAsWritten | main.c:70-100 | as written, the array holds the matches and an unset slot after them |
| Bootstrap.Os.Ls | main.c:70-100 | with the sentinel written, the array holds the matches then NULL, and `count` is their number |
| Bootstrap.Os.ConvertNext | main.c:153-165 | one iteration keeps the loop invariant, or stops where the specification gets stuck |
| Bootstrap.Os.RecordEntry | main.c:156-165 | the name and descriptor go to slot i, `json_bytes` grows by the entry's cost, and the loader match updates `loader_fd` |
| Bootstrap.Os.Convert | main.c:152-166 | the loop fills `names`, `fds`, `json_bytes` and `loader_fd` as `ConvertPrefix` says |
| Bootstrap.Os.ProcPath | main.c:203-204 | the corrected buffer holds `/proc/self/fd/` and the digits plus the terminator |
| Bootstrap.Os.List | main.c:144-147 | the listing phase returns the sentinel-terminated array of the glob's matches |
| Bootstrap.Os.Setup | main.c:144-150 | the setup phase returns the matches and fresh `names`/`fds` arrays of their size |
| Bootstrap.Os.Publish | main.c:168-201 | publishing returns 1 without the loader, without memory for the index, or when `setenv` cannot allocate its copy; otherwise it exports the index; in every case it reaches the state `PublishSpec` gives |
| Bootstrap.Os.Launch | main.c:203-217 | the launch does what `LaunchSpec` says |
| Bootstrap.Os.Boot | main.c:120-218 | `main` ends in the outcome and OS state `MainSpec` gives; `MainSpec` is `main` with the NULL sentinel stored and the 15+digits path buffer of "## Findings" |
| Loader.ModulesAsWritten | immutable/loader.py:21 | as written, the finder fails with `KeyError` exactly when `POCKET_ASI_MODULES` is unset |
| Loader.ModulesMissingAfterBootstrap | immutable/loader.py:21 | main.c exports only `POCKET_ASI_FILES`, so the finder as written always fails |
| Loader.Filename | immutable/loader.py:45-48 | the filename is `fd:/` and digits that read back as the descriptor |
| Loader.FilenameInjective | immutable/loader.py:45-48 | two descriptors with the same filename are equal |
| Loader.FindSpec | immutable/loader.py:54-65 | a spec exists exactly for names in the index; it carries the name, the descriptor and origin `fd:/N` |
| Loader.FindSpecAfterBootstrap | immutable/loader.py:54-65 | reading `POCKET_ASI_FILES`, each listed module gets a spec for its own descriptor and every other name gets none |
| Loader.OpenFile.Read | immutable/loader.py:39 | a read returns the next at most n bytes and advances by them; at the end it returns nothing |
| Loader.FdLoader.GetData | immutable/loader.py:33-43 | the data is the descriptor's whole content from offset 0, whatever the earlier offset |
| Loader.FdLoader.GetFilename | immutable/loader.py:45-48 | the filename is `fd:/` and the loader's descriptor |
| Framing.FirstNul | client/common.py:151-152 | the split point is the first NUL, and there is none only when the bytes hold no NUL |
| Framing.FirstNulOfFrame | client/common.py:131-153 | a NUL-free payload's frame splits right after the payload, whatever follows |
| Framing.ReadMessageSpec | client/common.py:139-153 | a message is read exactly when the stream holds a NUL |
| Framing.ReadMessageRoundTrip | client/common.py:131-153 | reading back what `send_model` wrote gives the JSON text, provided it holds no NUL |
| Framing.SendModel | client/common.py:131-136 | the JSON text and exactly one NUL are sent; no socket raises `ConnectionError` |
| Framing.ReadMessage | client/common.py:139-153 | the text before the first NUL is returned, what follows it in the buffer is lost, and a closed stream raises `ConnectionError` |
| Framing.ReadCommandFacts | client/client.py:53-62 | a message is returned exactly when the bytes hold a NUL, and it and the remainder make up the bytes; a peer that closed with nothing buffered gives `ConnectionError`; a buffered partial message hangs |
| Framing.ReadCommandFrame | client/client.py:53-62 | a frame's payload is returned and what follows it is kept for the next call |
| Framing.UnterminatedHangs | client/client.py:56-59 | a partial message with no NUL never completes |
| Framing.ReadCommandBuffered | client/client.py:53-62 | a buffer already holding a NUL yields its first message whatever is still to arrive |
| Framing.ReadCommandsInOrder | client/client.py:53-62 | frames arriving together are returned one per call, in arrival order |
| Framing.SessionAnswersInOrder | client/client.py:45-51 | a session over several frames answers each command in turn, in the commands' order |
| Framing.Client.ReadCommand | client/client.py:53-62 | the call returns what `ReadCommandSpec` gives for the buffer and the pending bytes, keeps the rest, and always receives at least once |
| Framing.Client.SendResult | client/client.py:64-66 | the result's JSON and exactly one NUL are sent |
| Framing.Client.HandleCommands | client/client.py:45-51 | the client sends one framed result per command read, in order, until the session ends |
| Framing.Client.HandleCommand | client/client.py:45-51 | one step reads a command and sends its answer, or ends the session having sent nothing |
| Framing.Expect | client/common.py:118-128 | a union target yields the first member that validates, or `ValueError` when none does; a message class yields its validation |
| Output.Tag | client/common.py:56-57 | each line is tagged with its stream and keeps its time and text |
| Output.InsertSorted | client/common.py:58 | inserting a line into a time-ordered list keeps it ordered |
| Output.InsertMultiset | client/common.py:58 | inserting adds exactly that line |
| Output.InsertAtTime | client/common.py:58 | an inserted line goes after every line stamped at the same time |
| Output.SortByTimeFacts | client/common.py:58 | the sort orders by time, is a permutation, and keeps the order of lines with equal times |
| Output.MergedOrder | client/common.py:58 | stdout and stderr merge in time order, with all lines and, on ties, stdout first then each stream's own order |
| Output.SortedUnique | client/common.py:58 | only one ordered list has the given lines at each time, so the stable sort is determined |
| Output.RStripNewlines | client/common.py:59 | stripping removes exactly the trailing newlines |
| Output.LogLines | client/common.py:58-59 | one logged line per merged line, in its stream's style, stripped of trailing newlines |
| Output.LogOutputShape | client/common.py:55-61 | the lines come in merged order, and the exit line comes last exactly when the code is non-zero |
| Output.ExitLineNamesCode | client/common.py:61 | the exit line is `Exited with code ` then the code, which reads back |
| Prompts.DigitRun | client/shell.py:214-217 | `[0-9]+` takes the maximal digit run at the start |
| Prompts.LastColonFacts | client/shell.py:214-217 | the greedy `host` group ends at the last colon that leaves a non-empty directory |
| Prompts.LastAtFacts | client/shell.py:214-217 | the greedy `user` group ends at the last `@` after which a host and directory still match |
| Prompts.CwdColons | client/shell.py:214-217 | the directory the match yields has no colon except perhaps its last character |
| Prompts.SplitSound | client/shell.py:214-217 | the split gives back `user@host:cwd` with three non-empty parts |
| Prompts.MatchSound | client/shell.py:214-217 | a match takes the prompt apart into digits, space, `user@host:cwd`, space, `$` or `#`, space |
| Prompts.RenderMatches | immutable/shell.py:123-126 | a prompt printed from fields whose host has no `@` or `:` and whose directory has no `:` matches back to those fields |
| Prompts.SplitUnambiguous | client/shell.py:214-217 | with such a host and directory the split recovers user, host and directory |
| Prompts.LastColonFinds | client/shell.py:214-217 | the last colon before which nothing later qualifies is the one the group stops at |
| Prompts.LastAtFinds | client/shell.py:214-217 | likewise for the last `@` |
| ClientShell.DummyOut | client/shell.py:53-55 | one line, stamped now, reading `/bin/bash: ` and the message |
| ClientShell.ParsePrompt | client/shell.py:211-231 | a matching prompt yields its exit code, user, host, directory, the user type (`$` user, `#` root) and the whole text; a mismatch raises `ValueError` |
| ClientShell.ParsePromptRoundTrip | client/shell.py:211-231 | parsing a printed prompt gives back its fields |
| ClientShell.StripLeadingComment | client/shell.py:186 | without MULTILINE only a comment on the first line is removed, up to its newline |
| ClientShell.InteractiveIn | client/shell.py:203-207 | exactly the interactive programs among the command's words are reported |
| ClientShell.InteractiveFound | client/shell.py:203-207 | some interactive program is reported exactly when a word is one |
| ClientShell.LexBlank | client/shell.py:186-187 | a blank or first-line-comment command is answered with exit code 0 and no stderr |
| ClientShell.LexSecondLine | client/shell.py:186-207 | a comment on the first line does not hide `vim` on the second |
| ClientShell.LexInteractive | client/shell.py:203-209 | a parsed command is refused, with -3, exactly when a word is vim, nano, less or more |
| ClientShell.LexErrors | client/shell.py:188-202 | parser errors give 2 with their message, `TypeError` gives -2, anything else propagates, and nothing else gives these |
| ClientShell.DummyResult | client/shell.py:158-182 | a refused command's result has the command, the code, no stdout, and the message as one stderr line when non-empty |
| ClientShell.Lex | client/shell.py:184-209 | a command that should run gives nothing; an error propagates; a refusal gives the dummy result with the current prompt |
| ClientShell.DirError | client/shell.py:443-452 | opening a path resolves its directories outermost first and fails at the first one missing (`File not found`), a regular file (`NotADirectoryError`'s text, naming the path being opened) or unreadable; success means the innermost one is a directory |
| ClientShell.DirErrorNone | client/shell.py:443-452 | resolution succeeds exactly when every directory on the way exists and is a directory |
| ClientShell.FileOnTheWay | client/shell.py:443-452 | a regular file anywhere on the way, with only directories above it, fails with `NotADirectoryError` naming the whole path being opened |
| ClientShell.DirErrorFrame | client/shell.py:443-452 | resolution does not look at entries longer than the innermost directory |
| ClientShell.AncestorError | client/shell.py:443-452 | the directories above a path resolve exactly when each of them is a directory, the path's own directory included |
| ClientShell.AncestorErrorFrame | client/shell.py:443-452 | resolving a path's directories does not depend on entries as long as the path, so writing a file does not change how its own path resolves |
| ClientShell.ReadOutcome | client/shell.py:443-455 | a read gives the file's text exactly when its directories resolve and it is a file; a failing directory gives that error, and a missing path under good directories `File not found` |
| ClientShell.WriteOutcome | client/shell.py:446-455 | a write succeeds exactly when the directories resolve and the path is absent or a file, and then replaces only that path's content; a failing directory gives its error, a directory `Is a directory` |
| ClientShell.UnderAFile | client/shell.py:443-452 | under a regular file at any depth, with only directories above it, both reading and writing fail with `[Errno 20] Not a directory: 'path'` for the whole path, which `_execute_file` does not translate |
| ClientShell.UnderAFileExample | client/shell.py:443-452 | with `a` a regular file, reading or writing `a/b` reports `[Errno 20] Not a directory: 'a/b'`, and `a/b/c` reports `[Errno 20] Not a directory: 'a/b/c'` |
| ClientShell.ExecuteFile | client/shell.py:435-455 | the result has the command's kind, file and base; a read changes no file; the errors are those of `ReadOutcome` and `WriteOutcome` |
| ClientShell.WriteThenRead | client/shell.py:435-455 | a successful write reports the content's length, changes no other path, and reading the file back gives the content |
| ClientShell.FileErrors | client/shell.py:435-455 | a failed command changes nothing and has no content or count; a missing file reads as its directories' error, or `File not found` when they resolve; a new file is written exactly when its directories resolve, and only into an existing directory |
| ClientShell.Shell.GetStdout | client/shell.py:146-150 | every queued stdout line is returned in order and the queue is left empty |
| ClientShell.Shell.GetStderr | client/shell.py:152-156 | every queued stderr line is returned in order and the queue is left empty |
| ClientShell.Shell.PutStdin | client/shell.py:141-144 | one line is written to bash's stdin |
| ClientShell.Shell.ExecuteShell | client/shell.py:392-427 | a refused command writes only the probe and gets the dummy result; a lexer error writes nothing; a run writes the command then the probe and drains both queues into the result |
| ClientShell.Shell.RunShell | client/shell.py:397-427 | the command and the probe are written, and the result carries the parsed prompt's exit code and the drained output |
| ClientShell.Shell.Execute | client/shell.py:466-473 | shell commands go to the shell, file commands to the file map, and anything else raises `ValueError` |
| ImmutableShell.ParsePs1 | immutable/shell.py:120-141 | a matching PS1 yields its exit code, user, host, directory, the raw `$` or `#` and the whole text; a mismatch raises `ValueError` |
| ImmutableShell.ParsePs1RoundTrip | immutable/shell.py:120-141 | parsing a printed PS1 gives back its fields |
| ImmutableShell.ParsePs1Fields | immutable/shell.py:120-141 | a parsed PS1 keeps the whole text, a raw user type, and the value of its leading digits |
| ImmutableShell.EscapeRoundTrip | immutable/shell.py:167 | escaping the quotes of PS1 loses nothing |
| ImmutableShell.EscapedQuotes | immutable/shell.py:167 | every quote in the escaped text follows a backslash |
| ImmutableShell.Probe | immutable/shell.py:168-170 | the probe starts by saving `$?` and setting the escaped PS1 |
| ImmutableShell.Shell.GetStdout | immutable/shell.py:103-107 | every queued stdout line is returned in order and the queue is left empty |
| ImmutableShell.Shell.GetStderr | immutable/shell.py:109-113 | every queued stderr line is returned in order and the queue is left empty |
| ImmutableShell.Shell.PutStdin | immutable/shell.py:98-101 | one line is written to bash's stdin |
| ImmutableShell.Shell.WaitDone | immutable/shell.py:143-158 | a timeout raises `TimeoutError` after draining the queues for the log; otherwise at most 1024 characters are read |
| ImmutableShell.FifoRead | immutable/shell.py:158 | one read returns at most 1024 characters, a prefix of what bash wrote, and all of it when it fits |
| ImmutableShell.Answer | immutable/shell.py:171-182 | a prompt that matches gives the result with the command, the queued lines, the prompt read and its exit code; otherwise the `ValueError` of `_parse_ps1` |
| ImmutableShell.Shell.Enqueue | immutable/shell.py:27-30 | the reader threads append bash's lines to each queue in the order printed |
| ImmutableShell.Shell.Run | immutable/shell.py:160-182 | a lexer error writes nothing; otherwise the command is written, then the probe; once bash answers, the result is `Answer` of what it wrote into the FIFO and of the queues, which are left empty; a timeout leaves them drained and a prompt that does not parse leaves them holding the new lines |
| ImmutableShell.PromptLookupFails | immutable/llama.py:65 | as written, `['prompt']` on a result raises `KeyError` |
| ImmutableShell.PromptTextOfRun | immutable/shell.py:172-182 | the corrected lookup gives the prompt bash printed after the command |
| Server.RootOf | server/server.py:138 | `.root` exists on a commands batch only |
| Server.InitialCommandsFail | server/server.py:112 | as written, the initial batch has no `.root` and fails before anything is sent |
| Server.InitialBatchCommands | server/const.py:12-18 | the corrected initial batch is the five shell commands in order |
| Server.ExpectOutcome | server/server.py:121-129 | a validating message is returned; a FIN raises `ConnectionError`; anything else is an error |
| Server.ResultsCount | server/server.py:137-145 | the results number the replies received, and equal the messages exactly when all are replies |
| Server.LastShellIsLast | server/server.py:146-147 | the shell result found is the batch's last |
| Server.LastPromptIsLast | server/server.py:146-147 | `_prompt` ends as the prompt of the batch's last shell result, or unchanged without one |
| Server.Server.Cleanup | server/server.py:63-72 | the socket is closed unless shutting it down fails; a second call changes nothing |
| Server.Server.Expect | server/server.py:121-129 | the next message is consumed and judged; a FIN also closes the socket; a closed connection raises `ConnectionError` |
| Server.Server.SendCommands | server/server.py:131-151 | each command is sent and answered before the next; history gets the whole batch's results only after all arrive; `_prompt` is the last shell prompt |
| Server.Server.InitialCommands | server/server.py:107-114 | the first successful call sends each command of the batch and receives its answer, in order, commits the results as one history entry and tracks the last prompt; later calls send nothing; the terminal ends unsuspended |
| Server.Server.Handshake | server/server.py:84-91 | NOP ends the connection with no reply; SYN gets ACK; commands come only after SYN, ACK, ACK |
| Server.Server.HandleConnection | server/server.py:74-105 | a closed socket raises `ConnectionError`; commands are sent only after a full handshake; the intro runs once; the initial batch is the corrected one of "## Findings" |
| Server.Server.Serve | server/server.py:54-61 | the loop stops only once the socket is closed, and connection errors never escape it, with the corrected initial batch of "## Findings"; as written, the `AttributeError` of the first connection escapes it |
| LlamaChat.Simplify | server/llama_chat.py:18-24 | the prompt and exit code are copied and the outputs are their lines' texts joined in order |
| LlamaChat.JoinedSnoc | server/llama_chat.py:21-22 | joining one more line appends its text |
| LlamaChat.SimplifyOneMoreLine | server/llama_chat.py:18-24 | a result with one more stdout or stderr line shows that line's text at the end of the simplified output |
| LlamaChat.KeptFacts | server/llama_chat.py:41 | the fields kept are exactly the truthy ones |
| LlamaChat.UserContentFields | server/llama_chat.py:41 | the exit code is shown exactly when non-zero, and each output and the prompt exactly when non-empty |
| LlamaChat.QuietResult | server/llama_chat.py:41 | a silent successful command shows only its prompt |
| LlamaChat.FromCommandsAt | server/llama_chat.py:29-49 | entry i becomes message 2i (assistant, the command) and 2i+1 (user, its simplified result) |
| LlamaChat.FromCommandsAppend | server/llama_chat.py:29-49 | the messages of a joined history are the two histories' messages joined |
| LlamaChat.FromCommandsSuffix | server/llama_chat.py:29-49 | dropping k entries drops exactly the first 2k messages |
| LlamaChat.SystemTextParts | server/llama_chat.py:80-92 | the system text starts with the goal line and ends with the separator and the mutable part |
| LlamaChat.FirstFitFacts | server/llama_chat.py:100-110 | the chosen start is the first whose non-empty suffix fits the limit; none means no suffix fits |
| LlamaChat.NoFit | server/llama_chat.py:111 | the error names the context size |
| LlamaChat.TrimmedPrompt | server/llama_chat.py:100-108 | the prompt returned fits `n_ctx - 512` tokens, is the system message and the messages of a non-empty suffix, and every longer suffix is too long |
| LlamaChat.Chat.AppendCommand | server/llama_chat.py:72-78 | one entry is added at the end, and config, system and goal fall back to their defaults when unset or empty |
| LlamaChat.Chat.SystemMessage | server/llama_chat.py:80-92 | the system message exists once an entry was appended; before that the attribute is missing |
| LlamaChat.Chat.Trim | server/llama_chat.py:100-114 | oldest entries are dropped until the rest fits; the history is left as that suffix, or empty with `ValueError` |
| LlamaChat.Chat.GetPrompt | server/llama_chat.py:94-114 | the history is trimmed to the first fitting suffix and the prompt built from it, or emptied with `ValueError` |
| LlamaChat.Chat.GetCommands | server/llama_chat.py:116-124 | the model's reply is returned after trimming, or the trimming error is raised |
| ImmutableLlama.Config | immutable/llama.py:96-109 | the options fail only when the file's options are not a mapping |
| ImmutableLlama.ConfigMerge | immutable/llama.py:96-109 | the base values win on shared keys, user options fill the rest, and a missing, invalid or option-less file gives the base |
| ImmutableLlama.ConfigIdempotent | immutable/llama.py:108 | merging the merged options again changes nothing |
| ImmutableLlama.UserTextInOrder | immutable/llama.py:55-66 | with only ordered stdout, the user text is the output joined, a newline and the prompt |
| ImmutableLlama.UserTextEndsWithPrompt | immutable/llama.py:55-66 | the user text ends with a newline and the prompt |
| ImmutableLlama.FromCommandsAt | immutable/llama.py:44-72 | entry i becomes message 2i (assistant, the command) and 2i+1 (user, its output and prompt) |
| ImmutableLlama.FromCommandsSnoc | immutable/llama.py:44-72 | appending an entry appends its two messages |
| ImmutableLlama.FromCommandsAsWrittenFails | immutable/llama.py:65 | as written, any non-empty history raises `KeyError: 'prompt'` |
| ImmutableLlama.WrittenAt | immutable/llama.py:31-41 | the initial commands write each command followed by the probe |
| ImmutableLlama.RunInitial | immutable/llama.py:40 | one initial command succeeds exactly when PS1 is set, it lexes and bash answers with a matching prompt; then the result `shell.run` gave is appended, the queues are drained and its writes follow the earlier ones |
| ImmutableLlama.InitialCommands | immutable/llama.py:31-41 | the history exists exactly when every command is answered with a matching prompt; then entry i is the result `shell.run` gave for command i, with its output, prompt and exit code; bash was fed each command then the probe; an unset `PS1` raises `KeyError` |
| ImmutableLlama.Llama.PromptRequest | immutable/llama.py:111-134 | the request is the system text then two messages per entry, 1 + 2·\|history\| in all, with the base options; a missing `system.md` raises `FileNotFoundError` |
| ImmutableApp.MatchAt | immutable/const.py:10-13 | a rule's match covers at least its delimiters and its replacement is shorter by at least them |
| ImmutableApp.SubShortens | immutable/app.py:43 | a substitution never lengthens the command, and one that changes it removes at least the delimiters |
| ImmutableApp.SubUnchangedIff | immutable/app.py:43-44 | a substitution leaves the command unchanged exactly when the rule matches nowhere |
| ImmutableApp.FenceUnwraps | immutable/const.py:11 | a fenced block loses its fences and an optional `python` tag |
| ImmutableApp.NoteDisappears | immutable/const.py:12 | a `(Note: …)` is removed entirely |
| ImmutableApp.RoundUnchangedIff | immutable/app.py:41-49 | a pass leaves the command unchanged exactly when both rules leave it unchanged |
| ImmutableApp.CleanShortens | immutable/app.py:37-51 | the clean-up never lengthens the command |
| ImmutableApp.CleanFixpoint | immutable/app.py:37-51 | the result is a fixpoint: neither rule matches it |
| ImmutableApp.CleanUnchangedIff | immutable/app.py:37-51 | a command is returned unchanged exactly when no rule matches it |
| ImmutableApp.CleanIdempotent | immutable/app.py:37-51 | cleaning twice is cleaning once |
| ImmutableApp.Cleanup | immutable/app.py:37-51 | the loop returns the clean-up's fixpoint |
| ImmutableApp.SplitJoin | immutable/app.py:68 | joining the pieces the scan cuts with the prompt gives back the command |
| ImmutableApp.RemoveIsConcat | immutable/app.py:68 | removing the prompt leaves the pieces between its occurrences, in order |
| ImmutableApp.SplitFinds | immutable/app.py:66-68 | the scan cuts at least once exactly when the prompt occurs |
| ImmutableApp.RemoveLength | immutable/app.py:68 | the command loses the prompt's length once per occurrence removed |
| ImmutableApp.StripPromptFacts | immutable/app.py:66-68 | a command without the prompt is kept; one with it loses every occurrence the scan finds, at least one, and keeps the rest in order |
| ImmutableApp.StripSinglePass | immutable/app.py:68 | removal is a single left-to-right pass, so an occurrence it creates stays |

## Left out

- `log_message` and its timestamp (main.c:14-28) are not modelled: they only write to stderr.
- The syscalls in main.c are effects on `OsState`, not code: `glob`, `fopen`/`fread`, `memfd_create`, `write`, `unlink`, `rmdir` and `execv`. `rmdir` removes the root only when it is empty. `execv` failing is not separated from the interpreter being absent.
- Bootstrap.FileToFdSpec: `write(fd, buf, strlen(buf))` stops at the first NUL (main.c:113), so a file holding a NUL is copied only up to it.
- Bootstrap.ConvertStep: a failed conversion is recorded as fd -1 and the loop goes on (main.c:154-158).
- Bootstrap.MainSpec and the members that state main's end-to-end behaviour (MainLaunched, MainExecsLoader, MainMovesFiles, MainReachesExec, Os.Boot) describe `main` with the two corrections of "## Findings": the listing stores its NULL sentinel and the path buffer holds 15 bytes plus the digits. As written, the loop at main.c:153 reads an unset slot, which `SentinelMissing` shows.
- Bootstrap.MainSpec: a NULL `strdup` or path buffer reaches `strlen`/`sprintf` in the source. It is modelled as an undefined outcome, not as a crash with a signal.
- Framing.Expect: `FinMessage` and the message classes are imported from modules not modelled here. A FIN is taken to validate at every expect point, and validation is a function parameter.
- Framing.Client.ReadCommand: the hang on a partial message from a closed peer is the outcome `Hangs`, not an endless loop.
- The remaining branches of `log_output` (client/common.py:63-82) only format file results for display and are not modelled. The colours are the line's stream.
- ClientShell.DirError: the message of `NotADirectoryError` quotes the path with single quotes, as `repr` does for paths without a quote character; paths holding a quote are quoted differently by Python. An unreadable directory reports that entry's own message.
- ClientShell.ReadOutcome and ClientShell.WriteOutcome work on a flat map from path to entry; symbolic links, `..` and absolute paths resolving through `/` are not modelled.
- ClientShell.Lex: the set in `_lex` has no fixed iteration order. The interactive programs are reported in the order of the constant list.
- bashlex is not modelled: its answer is a `Parsed` input, either the command's words or an error kind.
- ClientShell.Shell.ExecuteShell models only the short-circuit and the result assembly. Process start, reader threads, `_wait_done`, killing and respawning are not modelled; the prompt text bash prints is an input.
- ImmutableShell.Shell.WaitDone: the 1024-byte read limit is counted in characters, since the model has no UTF-8 decoding.
- ImmutableShell.Shell.Run: the reader threads are one `Enqueue` call after the command is written. Lines they queue only after the prompt is read stay in the queues and are reported with the next command.
- FdIndex.ImportIndex parses only the compact form main.c writes (`{"name":fd,...}` with no whitespace and names needing no escaping); any other JSON text is reported as a decoding error.
- ImmutableShell.Shell.Run: with `PS1` unset the `KeyError` comes after the command is already written. The model keeps that order.
- ImmutableShell.EscapeQuotes escapes `"` only, as `str.replace` does. Backslashes and `$` in PS1 are passed through unchanged.
- Server.Server.HandleConnection: a `ValueError`/`ValidationError` from `get_commands` is retried. `llm` is a finite sequence of replies, so the model stops where the program would keep asking.
- Server sockets are not modelled: bind, listen and accept, the terminal rendering and the timeouts. What the peer sends is a message sequence per connection.
- Env.Lower lower-cases ASCII letters only. Python's `str.lower` also folds other scripts, which cannot turn a value into `true` or `1`.
- The client configuration's temperature is a float and is not interpreted.
- LlamaChat.Simplify: `CommandResult` and `SimpleCommandResult` are imported from modules not modelled here. Their fields are taken from their use, and the JSON rendering of the user message is its list of kept fields.
- LlamaChat.Chat.SystemMessage: before any `append_command`, `_system_mutable` is unset, so `system` raises `AttributeError`. The model keeps that as an error.
- LlamaChat.Chat.Trim: the token count and `n_ctx` are parameters (`tokenize_messages`, `get_server_config`). The log lines are not modelled.
- The llama_cpp and ollama calls are not modelled. The reply is an input.
- ImmutableLlama.Config: the config file is one of missing, not JSON, without `LlmOptions`, options that are not a mapping (a `TypeError` from `|`), or a mapping of options.
- ImmutableLlama.Llama.PromptRequest: file contents are inputs. The `ps1` lookup is the corrected one.
- ImmutableLlama.Llama.constructor takes the initial history that `ImmutableLlama.InitialCommands` produces, rather than running the shell itself.
- The `run` loop of immutable/app.py is not modelled, except its prompt stripping: logging, `_highlight_bash`, `sleep` and the `mutable.app` import are left out. `_log_output` is Output.LogOutput with the stream as the log level.
- Output: timestamps are integers rather than floats. Only their order matters to the sort.
- Entry points, `sys.meta_path` registration, and the Python type and constant files are not modelled. Only the constants they define are used.
- server/llama_server.py and server/terminal.py are not part of this model.

## Findings

| source | as written | input that shows it | evidently intended | confidence | as-written member | corrected member |
|---|---|---|---|---|---|---|
| main.c:74 | `ls` allocates `count + 1` slots but never sets `files[count]`, yet `main` loops until it meets a NULL slot (main.c:153) | any listing, e.g. one file `r/a`: slot 1 is uninitialised heap | `files[count] = NULL` after the copy loop | high, not executed | Bootstrap.SentinelMissing | Bootstrap.SentinelPresent |
| main.c:203-204 | the path buffer is `14 + digits` bytes, but `sprintf` writes `/proc/self/fd/` (14 bytes), the digits and a NUL | loader fd 3: 15 allocated, 16 written | allocate `15 + digits` | high, not executed | Bootstrap.ProcPathOverflow | Bootstrap.Os.ProcPath |
| immutable/loader.py:21 | the finder reads `POCKET_ASI_MODULES`, but main.c exports only `POCKET_ASI_FILES` (main.c:195) | any bootstrap: the import raises `KeyError: 'POCKET_ASI_MODULES'` | read the index main.c exports; its keys are file basenames (main.c:155) while `find_spec` is asked dotted names such as `immutable.app` (immutable/loader.py:70), so imports resolve only when the root's files are named after their modules | medium: the variable could be set outside main.c; not executed | Loader.ModulesMissingAfterBootstrap | Loader.FindSpecAfterBootstrap |
| immutable/llama.py:65 | the user message reads `command['prompt']['prompt']`, but `run` returns the prompt under `ps1` with field `ps1` (immutable/shell.py:176-182) | the initial history of five results: `KeyError: 'prompt'` | `command['ps1']['ps1']` | high, not executed | ImmutableLlama.FromCommandsAsWrittenFails | ImmutableLlama.FromCommandsAt |
| server/server.py:112 | `_initial_commands` passes the bare list `INITIAL_COMMANDS`, and `_send_commands` reads `.root` from it (server/server.py:138) | the first connection: `AttributeError: 'list' object has no attribute 'root'` | the five texts wrapped as shell commands in a commands batch | high, not executed | Server.InitialCommandsFail | Server.InitialBatchCommands |
