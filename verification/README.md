# borg_sya: the borg adapter and its reentrancy counters, in Dafny

This project models the sequential decision logic of borg_sya, a wrapper that
drives the `borg` backup program. It also proves properties of that logic.

- `Borg` (borg_sya/borg/__init__.py) runs `borg` as a child process with
  `--log-json --json`. It keeps a running flag, which `_while_running`
  checks before `_run`, `_signal` and `_reply` proceed.
- `_run` builds the command line and routes each line its reader loop delivers.
  Stdout lines go to an optional capture list. Each stderr line is a JSON
  message: `parse_json` escalates designated log messages to `BorgError`,
  and every other message is yielded to the caller.
- `create`, `list` and `prune` validate their arguments, build borg's
  option list from a `Repository`, and refuse messages that ask for an
  interactive answer.
- borg_sya/util.py contributes three pieces:
  - `which`, a first-match search over `PATH`;
  - `ProcessLock`, a reentrant lock around one abstract socket;
  - `LazyReentrantContextmanager`, a context manager whose real entry can be
    deferred and whose exit happens once, at the outermost level.

Modules, one per file:

| file | module | models |
|---|---|---|
| errors.dfy | `Errors` | `Option`, `Result`, the exceptions raised, Python truthiness of strings |
| text.dfy | `Text` | `str.split`, `str.join`, `str(int)` and their inverses |
| argv.dfy | `Argv` | a decoder for flat option lists: options that take a value, switches, positionals |
| repositories.dfy | `Repositories` | `Repository.borg_args`, `borg_env`, `str(repo)` |
| events.dfy | `Events` | decoded messages, `parse_json`, the prompt-refusing loops |
| adapter.dfy | `BorgAdapter` | the guard, `_run` (command line, routing, running flag), `_signal`, `_reply` |
| commands.dfy | `Commands` | `create`, `list`, `prune` |
| path_search.dfy | `PathSearch` | `which`, `os.path.join` |
| process_locks.dfy | `ProcessLocks` | `ProcessLock` |
| lazy_contexts.dfy | `LazyContexts` | `LazyReentrantContextmanager` |

Each option builder is specified by what `Argv.Parse` reads back from its
output. `Argv.Parse` is the model's own decoder, a simplified argparse (see
"## Left out"), and each subcommand has a reference
argument list (`CreateArgs`, `ListArgs`, `PruneArgs`). For `_run`, the line
routing is specified against reference definitions: the clean prefix of the
line sequence, the stdout texts and the stderr messages in arrival order.

The source has several evident defects. For each one, the model keeps the
code as written in a member named `...AsWritten`, with a lemma exhibiting the
failure. It also has a corrected member, which the rest of the model uses
(see "## Findings").

Inputs that the code reads from the world become parameters:
- the borg binary's location (`BINARY`);
- the sets of error and prompt message ids, which borg_sya/borg/__init__.py never defines;
- whether the child process launches, and the line sequence the reader
  loop of `_communicate_linewise` delivers. This is a merge of the two
  streams, possibly cut short (see "## Left out");
- `PATH` and the directory listings, for `which`;
- whether binding the lock's socket succeeds.

Two points of the code the model keeps as they are:
- Uncaptured stdout lines: the code has no event for them. Its `else`
  branch is commented `# stderr is not None`, and the corrected routing
  drops them.
- The code keeps one boolean running flag, and never clears it when the
  line loop ends in an exception.

## Model

| member | source | states |
|---|---|---|
| Repositories.RepoOptions | borg_sya/borg/__init__.py:35-43 | Every repository option is well-formed for the decoder `Argv.Parse` |
| Repositories.BorgArgs | borg_sya/borg/__init__.py:35-43 | `--remote-path rp` is present exactly when the remote path is truthy, and comes first. `--compression c` is present exactly when `create` is set and compression is truthy, and comes last. The length follows, and `Argv.Parse` decodes the list back to the reference options |
| Repositories.BorgEnv | borg_sya/borg/__init__.py:45-51 | The environment holds only `BORG_PASSPHRASE`, exactly when the passphrase is truthy, with the passphrase as its value |
| Repositories.BorgEnvAsWritten | borg_sya/borg/__init__.py:46-51 | As written, reading `self.passphrase` fails for every repository the constructor builds |
| Repositories.BorgEnvAsWrittenLosesPassphrase | borg_sya/borg/__init__.py:48 | A repository with a passphrase: the corrected environment carries it, the code as written raises |
| Repositories.Location | borg_sya/borg/__init__.py:53-56 | `f'{repo}::{archive}'` is the repository path, then `::`, then the archive name |
| BorgAdapter.NewBorg | borg_sya/borg/__init__.py:75-78 | A new adapter is idle and keeps its two settings |
| BorgAdapter.Guard | borg_sya/borg/__init__.py:59-70 | A guarded call goes through exactly when the running flag equals the required one; otherwise `RuntimeError` |
| BorgAdapter.GuardAsWritten | borg_sya/borg/__init__.py:62-66 | As written, a call whose check passes still fails: `TypeError` for `_signal`, `_reply` and a two-argument `_run`, and `AttributeError` for a three-argument `_run` |
| BorgAdapter.GuardAsWrittenBlocksIdleRun | borg_sya/borg/__init__.py:66 | An idle adapter may run and a running one may be signalled, yet the guard as written fails both |
| BorgAdapter.CommandLine | borg_sya/borg/__init__.py:125-132 | The binary, `--log-json`, `--json`, `--progress` exactly when requested, the subcommand, `--verbose` exactly when verbose, then the options in order |
| BorgAdapter.CommandLineDecodes | borg_sya/borg/__init__.py:125-132 | `Argv.Parse` decodes the command line after the binary as the two JSON switches, the optional progress switch, the subcommand, the optional verbose switch, and then the options on their own |
| BorgAdapter.Deliver | borg_sya/borg/__init__.py:144-145 | A stderr message raises exactly when it is fatal or the consumer raises on it. A fatal message is not yielded and raises `BorgError` with its id and fields. Any other message is yielded unchanged, and the consumer's exception, if any, follows |
| BorgAdapter.Route | borg_sya/borg/__init__.py:141-145 | Capturing is preserved, and no more events are yielded than lines arrive |
| BorgAdapter.RouteAsWritten | borg_sya/borg/__init__.py:142-145 | As written, any stdout line fails when there is no capture list or the list is empty |
| BorgAdapter.RouteAsWrittenLosesListing | borg_sya/borg/__init__.py:142 | With an empty capture list and one stdout line, the corrected routing captures the line; the code as written raises `TypeError` |
| BorgAdapter.CleanPrefix | borg_sya/borg/__init__.py:141-148 | Every line of the clean prefix raises nothing, and the line right after it raises |
| BorgAdapter.RouteFailure | borg_sya/borg/__init__.py:141-148 | The loop fails exactly when the clean prefix is shorter than the sequence, with the exception of the first line that raises |
| BorgAdapter.RouteOutput | borg_sya/borg/__init__.py:142-143 | The capture list receives exactly the stdout texts of the clean prefix, in arrival order |
| BorgAdapter.RouteYielded | borg_sya/borg/__init__.py:144-145 | The consumer receives exactly the stderr messages of the clean prefix, in arrival order. It also receives the first raising line's message when the consumer, not `parse_json`, raised on it |
| BorgAdapter.RouteSpec | borg_sya/borg/__init__.py:141-148 | The failure, captured output and yielded events of the loop, all at once |
| BorgAdapter.RouteComplete | borg_sya/borg/__init__.py:141-145 | Without fatal messages and with a consumer that never raises, every delivered stdout line is captured and every delivered stderr message is yielded, each stream in its own order |
| BorgAdapter.RouteStopsAt | borg_sya/borg/__init__.py:141-148 | The first raising line ends the loop: nothing after it is captured or yielded |
| BorgAdapter.FatalMessageEndsRun | borg_sya/borg/__init__.py:157-162 | A fatal message raises `BorgError` with its id and is not yielded; nothing after it is captured or yielded |
| BorgAdapter.Run | borg_sya/borg/__init__.py:123-152 | A second run while running is refused and changes nothing. The running flag is set only once `Popen` succeeded, and cleared only when the lines are exhausted cleanly. The outcome, output and events agree with the reference definitions |
| BorgAdapter.RunStopsAt | borg_sya/borg/__init__.py:138-148 | A run stopped by a raising line propagates that line's exception with the flag still set |
| BorgAdapter.SequentialRuns | borg_sya/borg/__init__.py:123-152 | Two clean runs in a row both go through and leave the adapter idle |
| BorgAdapter.FailedRunBlocksLaterRuns | borg_sya/borg/__init__.py:138-150 | After an exception mid-run, every later run on the same adapter is refused |
| BorgAdapter.SendSignal | borg_sya/borg/__init__.py:166-170 | A signal is delivered exactly when running; otherwise `RuntimeError` |
| BorgAdapter.Interrupt | borg_sya/borg/__init__.py:172-173 | Delivers SIGINT exactly when running |
| BorgAdapter.Terminate | borg_sya/borg/__init__.py:175-176 | Delivers SIGTERM exactly when running |
| BorgAdapter.Reply | borg_sya/borg/__init__.py:178-188 | A reply while idle is a `RuntimeError`; while running it is unimplemented |
| BorgAdapter.SignalsDuringRun | borg_sya/borg/__init__.py:166-170 | A signal is refused by an adapter that has not run and by one whose run ended cleanly, and delivered by a running adapter |
| Events.ParseJson | borg_sya/borg/__init__.py:154-164 | `BorgError`, carrying the id and the fields, exactly for a `log_message` with a truthy id in the error set; every other message is returned unchanged. Dictionary lookups replace the attribute access, and `_log(e)` is dropped (see "## Findings") |
| Events.ParseJsonAsWritten | borg_sya/borg/__init__.py:155-157 | As written, attribute access on the decoded dict fails for every line |
| Events.ParseJsonAsWrittenRejectsEveryEvent | borg_sya/borg/__init__.py:157 | A plain progress message passes the corrected parser and fails the code as written |
| Events.ParseJsonLogAsWritten | borg_sya/borg/__init__.py:159-162 | With the lookups corrected but `_log(e)` kept, a fatal message raises `TypeError` instead of `BorgError`, and exactly fatal messages raise |
| Events.ParseJsonLogAsWrittenMasksBorgError | borg_sya/borg/__init__.py:161 | A message with an error id: `BorgError` from the corrected parser, `TypeError` from the logging line as written |
| Events.Consume | borg_sya/borg/__init__.py:210-218 | A command loop raises `RuntimeError` on exactly the log messages with a prompt id. It raises `NotImplementedError` only in `create`, on the two progress type names as spelt there. A collecting caller never raises. The loops are read with dictionary lookups (see "## Findings") |
| Events.ConsumeAsWritten | borg_sya/borg/__init__.py:210-211 | As written, every event a command loop receives raises `AttributeError` on `msg.type`; only a collecting caller passes |
| Events.ConsumeAsWrittenMissesPrompt | borg_sya/borg/__init__.py:210-213 | A prompt: refused with `RuntimeError` by the corrected loop, `AttributeError` in the loop as written |
| Events.LogMessageDisposition | borg_sya/borg/__init__.py:157-162 | Parsing followed by a command loop sorts log messages three ways: error ids are fatal, prompt ids are refused, and the rest pass |
| Commands.CreateOptions | borg_sya/borg/__init__.py:196-206 | `ValueError` exactly when no include path is given. Otherwise the options render the reference arguments, end with the includes, and name the archive just before them |
| Commands.CreateOptionsDecode | borg_sya/borg/__init__.py:199-206 | When the repository path and includes do not look like options, `Argv.Parse` decodes them to the reference arguments: repository options, `--stats` exactly when asked, one `--exclude` per pattern, the archive, the includes |
| Commands.Create | borg_sya/borg/__init__.py:193-219 | Without includes nothing runs and the adapter is untouched. Otherwise borg is run with progress exactly when a callback is given, and the call succeeds exactly when the run is clean |
| Commands.CreatePromptRaises | borg_sya/borg/__init__.py:210-213 | A prompt log message ends `create` with `RuntimeError`, after the consumer received it, with the adapter still running |
| Commands.CreateProgressRaises | borg_sya/borg/__init__.py:217-219 | A progress message ends `create` with `NotImplementedError` |
| Commands.CreateRunAsWritten | borg_sya/borg/__init__.py:209 | As written, `bool(progress_cb)` is the environment, and `Popen` fails before borg starts |
| Commands.CreateRunAsWrittenNeverStarts | borg_sya/borg/__init__.py:209 | A backup that succeeds under the corrected call fails as written |
| Commands.SortValue | borg_sya/borg/__init__.py:271-278 | Accepted exactly when every requested key is `timestamp`, `name` or `id`. No option is produced when no key is requested. Otherwise the value splits on `,` back into the requested keys. Rejection is a `ValueError` |
| Commands.NoSingleCharacterKey | borg_sya/borg/__init__.py:274 | The character-wise fallback never accepts a non-empty string |
| Commands.Braced | borg_sya/borg/__init__.py:288 | One `{key}` placeholder per additional key, in order |
| Commands.FormatValueSplits | borg_sya/borg/__init__.py:285-289 | The `--format` value splits on spaces back into the placeholders, when no key holds a space |
| Commands.ListOptions | borg_sya/borg/__init__.py:256-289 | `ValueError` exactly when both prefix and glob are given (checked first) or the sort criterion is invalid. Otherwise `Argv.Parse` decodes each given selection as the value of its own option, with `--first` and `--last` only when nonzero |
| Commands.ListOptionsAsWritten | borg_sya/borg/__init__.py:266 | As written, every call past the prefix/glob check raises `NameError` on `short` |
| Commands.ListOptionsAsWrittenFails | borg_sya/borg/__init__.py:266 | A plain listing: accepted by the corrected builder, `NameError` as written |
| Commands.List | borg_sya/borg/__init__.py:248-302 | Invalid arguments stop before any run. A listing that completes returns every stdout line of the delivered sequence, in order |
| Commands.ListRunAsWritten | borg_sya/borg/__init__.py:293 | As written, the capture list is the environment, and `Popen` fails before borg starts |
| Commands.ListRunAsWrittenLosesListing | borg_sya/borg/__init__.py:293 | A one-archive repository: listed by the corrected call, lost as written |
| Commands.KeepArgs | borg_sya/borg/__init__.py:327-328 | One `--keep-<interval> <number>` option per retention rule, in iteration order |
| Commands.KeepPairs | borg_sya/borg/__init__.py:327-328 | The tokens the loop appends are the rendering of those options |
| Commands.KeepRoundTrip | borg_sya/borg/__init__.py:327-328 | Each `--keep-` option gives back its interval and its number |
| Commands.PruneOptions | borg_sya/borg/__init__.py:321-331 | `ValueError` exactly when no retention rule is given. Otherwise the options render the reference arguments and end with the repository path |
| Commands.PruneOptionsDecode | borg_sya/borg/__init__.py:323-331 | `Argv.Parse` decodes them to: repository options, `--list --stats` exactly when verbose, the retention rules, `--prefix` exactly when given, the repository |
| Commands.PruneOptionsAsWritten | borg_sya/borg/__init__.py:331 | As written, `self.repo` fails for every call with a retention rule |
| Commands.PruneOptionsAsWrittenFails | borg_sya/borg/__init__.py:331 | Keeping seven daily archives: the corrected options end with the repository, the code as written raises |
| Commands.Prune | borg_sya/borg/__init__.py:320-341 | Without retention rules nothing runs. Otherwise borg is run with these options, and the call succeeds exactly when the run is clean |
| Text.Split | borg_sya/util.py:15 | `str.split` with one separator: at least one piece, none containing the separator |
| Text.JoinSplit | borg_sya/borg/__init__.py:275 | Joining the pieces of a split gives back the string |
| Text.SplitJoin | borg_sya/borg/__init__.py:275 | Splitting a join gives back the pieces when none holds the separator |
| Text.DecimalString | borg_sya/borg/__init__.py:281 | `str(n)` starts with `-` exactly for negative numbers |
| Text.DecimalRoundTrip | borg_sya/borg/__init__.py:280-283 | `int(str(n)) == n` for every integer, so the numbers written for `--first` and `--last` (and for each `--keep-` rule at line 328) read back exactly |
| PathSearch.PathJoin | borg_sya/util.py:19 | `os.path.join(d, name)`: an absolute name replaces `d`. Otherwise the result starts with `d`, ends with the name, and has a `/` between them exactly when `d` is non-empty and does not already end in one |
| PathSearch.BasenameOfJoin | borg_sya/util.py:19 | The last component of the joined path is the name looked up |
| PathSearch.Which | borg_sya/util.py:14-22 | Without `PATH`, `KeyError`. Otherwise success exactly when some directory lists the command, and then the command joined onto the first such directory (unreadable ones are skipped). Failure is `RuntimeError("Command not found: <command>.")` |
| ProcessLocks.NewLock | borg_sya/util.py:41-43 | A new lock is at level zero and satisfies the invariant |
| ProcessLocks.Acquire | borg_sya/util.py:51-61 | Binds exactly at level zero. A failed bind raises `LockInUse` without changing the level; every success adds one level |
| ProcessLocks.Release | borg_sya/util.py:63-66 | Removes one level; closes exactly when the level goes from one to zero |
| ProcessLocks.AcquirePreservesValid | borg_sya/util.py:51-61 | Acquiring keeps the invariant (bound exactly while the level is positive) |
| ProcessLocks.ReleasePreservesValid | borg_sya/util.py:63-66 | Releasing keeps the invariant exactly when it matches an earlier acquire |
| ProcessLocks.ReplayBalance | borg_sya/util.py:51-66 | Over any call sequence with matched releases, the invariant holds, and binds minus closes tracks whether the socket is held |
| ProcessLocks.NewLockBalance | borg_sya/util.py:51-66 | From a new lock, binds equal closes plus one while held; back at level zero they are equal |
| ProcessLocks.NestedAcquire | borg_sya/util.py:51-66 | Nested acquire and release bind and close the socket once |
| LazyContexts.NewManager | borg_sya/util.py:70-73 | A new manager is at level zero, not lazy, not entered |
| LazyContexts.Call | borg_sya/util.py:75-77 | `manager(lazy=x)` sets `lazy` to `x` and changes nothing else |
| LazyContexts.Enter | borg_sya/util.py:85-94 | The level rises by one. `_enter` runs exactly when the manager is neither lazy nor entered. A lazy enter only clears `lazy` |
| LazyContexts.Exit | borg_sya/util.py:96-100 | The level drops by one. `_exit` runs, clearing `entered`, exactly when the manager is entered and the level reaches zero |
| LazyContexts.Step | borg_sya/util.py:75-100 | Each use moves the level by its depth, keeps the invariant (entered only inside a block), and changes `entered` exactly by the hook it fires |
| LazyContexts.ReplayInvariant | borg_sya/util.py:85-100 | Over any sequence that never closes more blocks than are open, the level moves by the depth and the invariant holds. `_enter` calls exceed `_exit` calls by one exactly while entered |
| LazyContexts.BalancedRestores | borg_sya/util.py:85-100 | Any balanced use of a new manager restores level zero and not entered, with `_enter` and `_exit` called equally often |
| LazyContexts.NestedBlocks | borg_sya/util.py:85-100 | In nested blocks only the outermost enters and exits |
| LazyContexts.DeferredEntry | borg_sya/util.py:86-100 | A lazy outer block defers entry to the next nested block, and the exit still happens when the outer block is left |
| LazyContexts.LazyBlockAlone | borg_sya/util.py:86-100 | A lazy block with nothing nested never enters and never exits |

## Left out

- The reader threads, the queue and the condition variable of `_readerthread` and `_communicate_linewise` are not modelled, because their point is concurrency. The model takes the tagged line sequence the loop yields, in any interleaving. That sequence need not hold every line borg writes. The loop `while all(t.is_alive() for t in threads)` (borg_sya/borg/__init__.py:112) stops as soon as the first reader ends, so lines still queued and later lines of the other stream are never routed. If both readers end after that check while the queue is empty, `new_msg.wait_for(...)` (:114) blocks forever. The model covers neither the lost lines nor the hang.
- `Popen`, `send_signal` and the child process are reduced to data: whether the launch succeeds, the lines the child writes, and the signal number delivered.
- `Script.run_popen`, its `tee` threads and `BytesIO` capture are left out, because they are process I/O.
- Real socket binding is reduced to an input (`bindOk`) and an abstract `held` flag.
- JSON decoding is left out: messages are already-decoded records. The decoding of listing lines and the pandas `DataFrame` at the end of `list` are also left out.
- `BINARY = which('borg')` runs at import time, and borg_sya/borg/__init__.py never imports `which`. The binary's location is a parameter of the model instead.
- `_run` is a generator: the guard runs when it is called, and its body runs lazily. The model treats a call and its full consumption as one step.
- Each command runs its loop inside `with repo:`, but `Repository` defines no `__enter__` or `__exit__`. That block is left out.
- The hooks `_enter` and `_exit` of `LazyReentrantContextmanager` are taken to return normally. An exception from a hook is not modelled.
- `mount`, `umount`, `extract`, `info`, `delete`, `recreate` and `init` are left out, because they raise `NotImplementedError` before doing anything. So are `_yes` and `_no` beyond `Reply`, and the progress callback, whose call is unreachable.
- The YAML script classes, `isexec`, and the terminal module are left out; they are outside the adapter and the reentrancy counters.
- Argv.Parse: an option that takes a value consumes the next token even when it starts with `-`. borg's argparse parser rejects such a value unless it is a negative number (e.g. `--prefix -x`). So the decode lemmas state what the model's decoder reads, not that borg accepts the list, and a prefix, glob, exclude pattern or remote path starting with `-` is not flagged as an error.
- The `dryrun` setting is stored by `Borg.__init__` and never read, so it has no effect in the model.
- BorgAdapter.Route: its own contract states only that capturing is preserved and that events are bounded by lines. This keeps the function cheap to unfold. What it captures, yields and raises is stated in BorgAdapter.RouteSpec, RouteOutput, RouteYielded and RouteFailure.
- Commands.List: the command line names no repository, because `list` never appends the repository location. The model keeps this as written.
- Commands.SortValue: the error message keeps its literal `{sort_by}`, because the source string is not an f-string.
- Commands.ListOptions: `sort_by` is modelled as a string or a sequence of strings, the two shapes the code handles. Other iterables are not modelled.
- Commands.Prune: the `keep` dictionary is a sequence of (interval, number) entries in iteration order. Key uniqueness is not needed by any property.

## Findings

| source | as written | input that shows it | evidently intended | confidence | as-written member | corrected member |
|---|---|---|---|---|---|---|
| borg_sya/borg/__init__.py:66 | `return func(*args, **kwargs)` drops `self`, so the arguments shift one place | `prune` on an idle adapter calls `_run('prune', options)` and gets `TypeError`. `_interrupt()` on a running adapter does too | `func(self, *args, **kwargs)` | high; not executed | BorgAdapter.GuardAsWritten (BorgAdapter.GuardAsWrittenBlocksIdleRun) | BorgAdapter.Guard |
| borg_sya/borg/__init__.py:157 | `msg.type` is attribute access on the dict returned by `json.loads` | any stderr line, e.g. `{"type": "progress_percent"}` | `msg['type']`, `msg.get('msgid')` | high; not executed | Events.ParseJsonAsWritten (Events.ParseJsonAsWrittenRejectsEveryEvent) | Events.ParseJson |
| borg_sya/borg/__init__.py:161 | `_log(e)` calls the `Logger` returned by `logging.getLogger('borg')` (line 23), which is not callable | a log message whose id is an error id, once the lookups of lines 157-159 are corrected: `TypeError` instead of `BorgError` | a logging method such as `_log.error(e)` | high; not executed | Events.ParseJsonLogAsWritten (Events.ParseJsonLogAsWrittenMasksBorgError) | Events.ParseJson |
| borg_sya/borg/__init__.py:210 | the loops of `create`, `list` and `prune` (lines 210-211, 294-295, 335-336) read `msg.type` and `hasattr(msg, 'msgid')` on the dict `parse_json` returns | any event reaching the loop, e.g. a prompt with id `BORG_RELOCATED_REPO_ACCESS_IS_OK`: `AttributeError`. With `.type` fixed, `hasattr` on a dict is always false, so no prompt is refused | `msg['type']`, `msg.get('msgid')` | high; not executed | Events.ConsumeAsWritten (Events.ConsumeAsWrittenMissesPrompt) | Events.Consume |
| borg_sya/borg/__init__.py:209 | `bool(progress_cb)` is passed positionally into the `env` slot | `create(repo, ['/home'])`: `Popen` rejects `False` as the environment before spawning (the exception class depends on the Python version) | `progress=bool(progress_cb)` | high; not executed | Commands.CreateRunAsWritten (Commands.CreateRunAsWrittenNeverStarts) | Commands.Create |
| borg_sya/borg/__init__.py:293 | `output` is passed positionally into the `env` slot | `list(repo, pandas=False)` on a repository with one archive | `output=output` | high; not executed | Commands.ListRunAsWritten (Commands.ListRunAsWrittenLosesListing) | Commands.List |
| borg_sya/borg/__init__.py:142 | `if output and stdout is not None:` treats an empty capture list as none, and the `else` branch parses the stdout line's `None` | capture list `[]` and one stdout line `{"name": "a"}` gives `TypeError` | test `output is not None`, and never parse a stdout line | medium; not executed | BorgAdapter.RouteAsWritten (BorgAdapter.RouteAsWrittenLosesListing) | BorgAdapter.Route |
| borg_sya/borg/__init__.py:266 | `if short:` reads a name defined nowhere | `list(repo)` with no prefix or glob | a `short=False` parameter, or no test | high; not executed | Commands.ListOptionsAsWritten (Commands.ListOptionsAsWrittenFails) | Commands.ListOptions |
| borg_sya/borg/__init__.py:331 | `f"{self.repo}"`, but `Borg` has no `repo` | `prune(repo, {'daily': 7})` | `f"{repo}"` | high; not executed | Commands.PruneOptionsAsWritten (Commands.PruneOptionsAsWrittenFails) | Commands.PruneOptions |
| borg_sya/borg/__init__.py:48 | `self.passphrase` is read, but `__init__` never sets it | `borg_env` of any constructed repository | a `passphrase` attribute set by the constructor | medium; not executed | Repositories.BorgEnvAsWritten (Repositories.BorgEnvAsWrittenLosesPassphrase) | Repositories.BorgEnv |
