/**
  The `Borg` adapter of borg_sya/borg/__init__.py: the running-flag guard,
  the command line of `_run`, the routing of the lines borg writes, and
  signal forwarding.

  `_run` is a generator fed by reader threads. The model replaces the
  threads by the sequence of tagged lines they deliver (`Process.lines`):
  whatever interleaving the threads produced, the adapter sees one sequence
  of stdout and stderr lines, and the model states what it does with any
  such sequence.
 */
module BorgAdapter {
  import opened Errors
  import opened Argv
  import opened Events

  /** The adapter's state: its two settings and the running flag. */
  datatype Borg = Borg(dryrun: bool, verbose: bool, running: bool)

  /** `Borg.__init__`: not running. */
  function NewBorg(dryrun: bool, verbose: bool): (b: Borg)
    ensures !b.running && b.dryrun == dryrun && b.verbose == verbose
  {
    Borg(dryrun, verbose, false)
  }

  // ---------------------------------------------------------------------
  // The `_while_running` guard

  /**
    `_while_running(while_running)`: the call goes through only when the
    running flag equals the required one; otherwise `RuntimeError()` and
    nothing happens. `_run` requires `false`; `_signal` and `_reply` `true`.
   */
  function Guard(running: bool, whileRunning: bool): (r: Result<()>)
    ensures r.Ok? <==> running == whileRunning
    ensures r.Err? ==> r.error == RuntimeError("")
  {
    if (whileRunning && running) || (!whileRunning && !running) then Ok(())
    else Err(RuntimeError(""))
  }

  /**
    The guarded calls this file makes: `_signal(sig)`, `_reply(answer)`, and
    `_run` with `passed` positional arguments (two in `prune`, three in
    `create` and `list`).
   */
  datatype GuardedCall = SignalCall | ReplyCall | RunCall(passed: nat)

  /** The flag a guarded call requires: `_run` needs an idle adapter, the others a running one. */
  function RequiredFlag(call: GuardedCall): bool {
    !call.RunCall?
  }

  /**
    The guard as written: `wrapper` calls `func(*args, **kwargs)` without
    `self`, so every argument shifts one place left and the first one is
    bound to `self`. `_signal` and `_reply` are then missing their only
    parameter, and so is `_run` called with two arguments: a `TypeError`.
    With three arguments `_run` binds `self` to the command name, and its
    body fails at its first use of `self`, `self.verbose`.
   */
  function GuardAsWritten(running: bool, call: GuardedCall): (r: Result<()>)
    ensures r.Err?
    ensures running != RequiredFlag(call) ==> r.error == RuntimeError("")
    ensures running == RequiredFlag(call) ==> r.error != RuntimeError("")
    ensures running == RequiredFlag(call) && !(call.RunCall? && call.passed >= 3) ==> r.error == TypeError
  {
    match Guard(running, RequiredFlag(call))
    case Err(e) => Err(e)
    case Ok(_) =>
      match call
      case SignalCall => Err(TypeError)
      case ReplyCall => Err(TypeError)
      case RunCall(passed) => if passed < 3 then Err(TypeError) else Err(AttributeError("verbose"))
  }

  /** An idle adapter may start a run and a running one may be signalled; the guard as written stops both. */
  lemma GuardAsWrittenBlocksIdleRun()
    ensures Guard(false, RequiredFlag(RunCall(2))).Ok?
    ensures GuardAsWritten(false, RunCall(2)) == Err(TypeError)
    ensures GuardAsWritten(false, RunCall(3)) == Err(AttributeError("verbose"))
    ensures Guard(true, RequiredFlag(SignalCall)).Ok?
    ensures GuardAsWritten(true, SignalCall) == Err(TypeError)
  {
  }

  // ---------------------------------------------------------------------
  // The command line

  /**
    The argument vector `_run` hands to `Popen`: the borg binary, the two
    machine-readable switches, `--progress` if requested, the subcommand,
    and the options, with `--verbose` in front of them when the adapter is
    verbose. The binary's location is a parameter (`BINARY` is computed at
    import time by `which('borg')`).
   */
  function CommandLine(binary: string, command: string, options: seq<string>, progress: bool, verbose: bool): (argv: seq<string>)
    ensures var k := if progress then 4 else 3;
            && |argv| == k + 1 + (if verbose then 1 else 0) + |options|
            && argv[..3] == [binary, "--log-json", "--json"]
            && (progress ==> argv[3] == "--progress")
            && argv[k] == command
            && argv[k + 1..] == (if verbose then ["--verbose"] else []) + options
  {
    var argv := [binary, "--log-json", "--json"];
    var argv := if progress then argv + ["--progress"] else argv;
    var options := if verbose then ["--verbose"] + options else options;
    argv + [command] + options
  }

  /** The machine-readable switches and the subcommand, as decoded arguments. */
  function Preamble(command: string, progress: bool, verbose: bool): (args: seq<Arg>)
  {
    [Switch("--log-json"), Switch("--json")]
    + (if progress then [Switch("--progress")] else [])
    + [Pos(command)]
    + (if verbose then [Switch("--verbose")] else [])
  }

  lemma PreambleWellFormed(command: string, progress: bool, verbose: bool)
    requires !OptionLike(command)
    ensures AllWellFormed(Preamble(command, progress, verbose))
  {
    NotKeepOption("--log-json");
    NotKeepOption("--json");
    NotKeepOption("--progress");
    NotKeepOption("--verbose");
  }

  lemma PreambleRendered(command: string, progress: bool, verbose: bool)
    ensures Render(Preamble(command, progress, verbose))
         == ["--log-json", "--json"] + (if progress then ["--progress"] else []) + [command]
            + (if verbose then ["--verbose"] else [])
  {
    var a := [Switch("--log-json"), Switch("--json")];
    var p := if progress then [Switch("--progress")] else [];
    var c := [Pos(command)];
    var v := if verbose then [Switch("--verbose")] else [];
    assert Preamble(command, progress, verbose) == a + p + c + v;
    RenderAppend(a + p + c, v);
    RenderAppend(a + p, c);
    RenderAppend(a, p);
    assert Render(a) == ["--log-json", "--json"] by {
      assert a[1..] == [Switch("--json")];
      RenderSingle(Switch("--json"));
    }
    RenderSingle(Pos(command));
    if progress {
      RenderSingle(Switch("--progress"));
    }
    if verbose {
      RenderSingle(Switch("--verbose"));
    }
  }

  /**
    Decoded by `Argv.Parse`, the command line after the binary is: `--log-json`,
    `--json`, `--progress` exactly when requested, the subcommand,
    `--verbose` exactly when the adapter is verbose, and then the options,
    read on their own.
   */
  lemma CommandLineDecodes(binary: string, command: string, options: seq<string>, progress: bool, verbose: bool)
    requires !OptionLike(command)
    ensures var argv := CommandLine(binary, command, options, progress, verbose);
            argv[0] == binary && Parse(argv[1..]) == Preamble(command, progress, verbose) + Parse(options)
  {
    var pre := Preamble(command, progress, verbose);
    CommandLineRendered(binary, command, options, progress, verbose);
    PreambleWellFormed(command, progress, verbose);
    ParseRenderAppend(pre, options);
  }

  /** After the binary, the command line is the rendered preamble followed by the options. */
  lemma CommandLineRendered(binary: string, command: string, options: seq<string>, progress: bool, verbose: bool)
    ensures var argv := CommandLine(binary, command, options, progress, verbose);
            argv[0] == binary && argv[1..] == Render(Preamble(command, progress, verbose)) + options
  {
    PreambleRendered(command, progress, verbose);
    var p := if progress then ["--progress"] else [];
    var v := if verbose then ["--verbose"] else [];
    var rest := ["--log-json", "--json"] + p + [command] + v + options;
    calc {
      CommandLine(binary, command, options, progress, verbose);
      [binary, "--log-json", "--json"] + p + [command] + (v + options);
      [binary] + rest;
    }
    assert ([binary] + rest)[1..] == rest;
  }

  // ---------------------------------------------------------------------
  // Running borg

  /** One line as the reader threads deliver it: raw stdout text, or a decoded stderr message. */
  datatype Line = Stdout(text: string) | Stderr(event: Event)

  /**
    A launch: whether it starts, and the lines the reader loop of
    `_communicate_linewise` yields. This is a merge of stdout and stderr,
    possibly cut short, because the loop stops once either reader ends.
   */
  datatype Process = Process(launches: bool, lines: seq<Line>)

  /**
    The `env` argument `Popen` receives: inherit the environment, an
    explicit mapping, or (as written in `create` and `list`) a value that
    is not a mapping at all, which `Popen` rejects.
   */
  datatype EnvArg = Inherit | Mapping(vars: map<string, string>) | NotAMapping

  /** What the loop over the lines produced: events yielded, captured output, and the exception that ended it. */
  datatype Drained = Drained(yielded: seq<Event>, output: Option<seq<string>>, failure: Option<Error>)

  /** What happens to one stderr message: the events the consumer received, and the exception raised. */
  datatype Delivery = Delivery(yielded: seq<Event>, failure: Option<Error>)

  /**
    One stderr line: `parse_json` first; if it returns, the event is yielded
    and the consumer may raise in turn.
   */
  function Deliver(ev: Event, errorIds: set<string>, c: Consumer): (dl: Delivery)
    ensures |dl.yielded| <= 1
    ensures dl.failure.None? ==> dl.yielded == [ev]
    ensures dl.failure.Some? <==> IsFatal(ev, errorIds) || Consume(c, ev).Some?
    ensures IsFatal(ev, errorIds) ==> dl.yielded == [] && dl.failure == Some(BorgError(ev.msgid.value, ev.payload))
    ensures !IsFatal(ev, errorIds) ==> dl.yielded == [ev] && dl.failure == Consume(c, ev)
  {
    match ParseJson(ev, errorIds)
    case Err(e) => Delivery([], Some(e))
    case Ok(ev') =>
      match Consume(c, ev')
      case Some(e) => Delivery([ev'], Some(e))
      case None => Delivery([ev'], None)
  }

  /**
    The body of the `for` loop in `_run`, with the routing the code evidently
    means (see `RouteAsWritten`): with a capture list, stdout lines are
    appended to it and never parsed; without one they are dropped. Stderr
    lines go through `parse_json` and are yielded to the consumer; the first
    exception, from either, ends the loop.
   */
  function Route(lines: seq<Line>, output: Option<seq<string>>, errorIds: set<string>, c: Consumer): (d: Drained)
    ensures d.output.Some? <==> output.Some?
    ensures |d.yielded| <= |lines|
    decreases |lines|
  {
    if |lines| == 0 then Drained([], output, None)
    else
      match lines[0]
      case Stdout(text) =>
        var output' := if output.Some? then Some(output.value + [text]) else output;
        Route(lines[1..], output', errorIds, c)
      case Stderr(ev) =>
        var dl := Deliver(ev, errorIds, c);
        if dl.failure.Some? then Drained(dl.yielded, output, dl.failure)
        else
          var rest := Route(lines[1..], output, errorIds, c);
          Drained(dl.yielded + rest.yielded, rest.output, rest.failure)
  }

  /**
    The routing as written: `if output and stdout is not None` treats an
    empty capture list as no capture, and the `else` branch then calls
    `parse_json(None)` for the stdout line, which `json.loads` rejects with
    a `TypeError`. The same happens to every stdout line when no list is
    passed. Stderr lines are handled as in `Route`.
   */
  function RouteAsWritten(lines: seq<Line>, output: Option<seq<string>>, errorIds: set<string>, c: Consumer): (d: Drained)
    ensures d.output.Some? <==> output.Some?
    ensures (exists i :: 0 <= i < |lines| && lines[i].Stdout?) && (output.None? || output.value == []) ==> d.failure.Some?
    decreases |lines|
  {
    if |lines| == 0 then Drained([], output, None)
    else
      match lines[0]
      case Stdout(text) =>
        if output.Some? && output.value != [] then RouteAsWritten(lines[1..], Some(output.value + [text]), errorIds, c)
        else Drained([], output, Some(TypeError))
      case Stderr(ev) =>
        var dl := Deliver(ev, errorIds, c);
        if dl.failure.Some? then Drained(dl.yielded, output, dl.failure)
        else
            var rest := RouteAsWritten(lines[1..], output, errorIds, c);
            assert (exists i :: 0 <= i < |lines| && lines[i].Stdout?) ==> (exists i :: 0 <= i < |lines[1..]| && lines[1..][i].Stdout?) by {
              if exists i :: 0 <= i < |lines| && lines[i].Stdout? {
                var i :| 0 <= i < |lines| && lines[i].Stdout?;
                assert lines[1..][i - 1] == lines[i];
              }
            }
            Drained(dl.yielded + rest.yielded, rest.output, rest.failure)
  }

  /** The capture list `list` passes starts empty: as written its first stdout line fails. */
  lemma RouteAsWrittenLosesListing()
    ensures Route([Stdout("{\"name\": \"a\"}")], Some([]), {}, Collect)
         == Drained([], Some(["{\"name\": \"a\"}"]), None)
    ensures RouteAsWritten([Stdout("{\"name\": \"a\"}")], Some([]), {}, Collect).failure == Some(TypeError)
  {
    var text := "{\"name\": \"a\"}";
    var lines := [Stdout(text)];
    RouteStep(lines, Some([]), {}, Collect);
    assert lines[1..] == [];
    assert [] + [text] == [text];
  }

  // Reference definitions for what `Route` does with a whole line sequence.

  /** The stdout texts in arrival order. */
  function StdoutTexts(lines: seq<Line>): seq<string>
    decreases |lines|
  {
    if |lines| == 0 then []
    else (if lines[0].Stdout? then [lines[0].text] else []) + StdoutTexts(lines[1..])
  }

  /** The stderr messages in arrival order. */
  function StderrEvents(lines: seq<Line>): seq<Event>
    decreases |lines|
  {
    if |lines| == 0 then []
    else (if lines[0].Stderr? then [lines[0].event] else []) + StderrEvents(lines[1..])
  }

  /** The exception a line raises, if any: parsing first, then the consumer. */
  function LineFailure(line: Line, errorIds: set<string>, c: Consumer): Option<Error> {
    match line
    case Stdout(_) => None
    case Stderr(ev) =>
      if IsFatal(ev, errorIds) then Some(BorgError(ev.msgid.value, ev.payload)) else Consume(c, ev)
  }

  /** The message of a line that ended the loop, if the consumer received it before raising. */
  function ConsumerSaw(line: Line, errorIds: set<string>): seq<Event> {
    match line
    case Stdout(_) => []
    case Stderr(ev) => if IsFatal(ev, errorIds) then [] else [ev]
  }

  /** The number of leading lines that raise nothing. */
  function CleanPrefix(lines: seq<Line>, errorIds: set<string>, c: Consumer): (n: nat)
    ensures n <= |lines|
    ensures forall i :: 0 <= i < n ==> LineFailure(lines[i], errorIds, c).None?
    ensures n < |lines| ==> LineFailure(lines[n], errorIds, c).Some?
    decreases |lines|
  {
    if |lines| == 0 || LineFailure(lines[0], errorIds, c).Some? then 0
    else
      var m := CleanPrefix(lines[1..], errorIds, c);
      assert forall i :: 1 <= i < m + 1 ==> lines[i] == lines[1..][i - 1];
      1 + m
  }

  lemma {:induction false} StdoutTextsAppend(a: seq<Line>, b: seq<Line>)
    ensures StdoutTexts(a + b) == StdoutTexts(a) + StdoutTexts(b)
    decreases |a|
  {
    if |a| == 0 {
      assert a + b == b;
    } else {
      assert (a + b)[1..] == a[1..] + b;
      StdoutTextsAppend(a[1..], b);
    }
  }

  /** `Deliver` against the reference definitions of a line's exception and of what the consumer saw. */
  lemma DeliverSpec(ev: Event, errorIds: set<string>, c: Consumer)
    ensures Deliver(ev, errorIds, c) == Delivery(ConsumerSaw(Stderr(ev), errorIds), LineFailure(Stderr(ev), errorIds, c))
  {
  }

  /** One line that raises nothing: `Route` handles it and continues with the rest. */
  lemma RouteStep(lines: seq<Line>, output: Option<seq<string>>, errorIds: set<string>, c: Consumer)
    requires |lines| > 0 && LineFailure(lines[0], errorIds, c).None?
    ensures var output' := if lines[0].Stdout? && output.Some? then Some(output.value + [lines[0].text]) else output;
            var rest := Route(lines[1..], output', errorIds, c);
            Route(lines, output, errorIds, c)
            == Drained((if lines[0].Stderr? then [lines[0].event] else []) + rest.yielded, rest.output, rest.failure)
  {
    if lines[0].Stdout? {
      var output' := if output.Some? then Some(output.value + [lines[0].text]) else output;
      assert [] + Route(lines[1..], output', errorIds, c).yielded == Route(lines[1..], output', errorIds, c).yielded;
    } else {
      DeliverSpec(lines[0].event, errorIds, c);
    }
  }

  /** One line that raises: `Route` stops there, yielding it only if the consumer saw it. */
  lemma RouteStop(lines: seq<Line>, output: Option<seq<string>>, errorIds: set<string>, c: Consumer)
    requires |lines| > 0 && LineFailure(lines[0], errorIds, c).Some?
    ensures Route(lines, output, errorIds, c)
         == Drained(ConsumerSaw(lines[0], errorIds), output, LineFailure(lines[0], errorIds, c))
  {
    DeliverSpec(lines[0].event, errorIds, c);
  }

  /** `Route` fails exactly when the clean prefix is short of the whole sequence, with the exception of the first unclean line. */
  lemma {:induction false} RouteFailure(lines: seq<Line>, output: Option<seq<string>>, errorIds: set<string>, c: Consumer)
    ensures var n := CleanPrefix(lines, errorIds, c);
            var d := Route(lines, output, errorIds, c);
            && (d.failure.None? <==> n == |lines|)
            && (n < |lines| ==> d.failure == LineFailure(lines[n], errorIds, c))
    decreases |lines|
  {
    if |lines| > 0 {
      if LineFailure(lines[0], errorIds, c).Some? {
        RouteStop(lines, output, errorIds, c);
      } else {
        var output' := if lines[0].Stdout? && output.Some? then Some(output.value + [lines[0].text]) else output;
        RouteStep(lines, output, errorIds, c);
        RouteFailure(lines[1..], output', errorIds, c);
        var m := CleanPrefix(lines[1..], errorIds, c);
        assert m < |lines[1..]| ==> lines[1..][m] == lines[m + 1];
      }
    }
  }

  /** Slicing a prefix of length `n + 1` peels off the first line. */
  lemma PrefixCons(lines: seq<Line>, n: nat)
    requires n < |lines|
    ensures lines[..n + 1] == [lines[0]] + lines[1..][..n]
    ensures StdoutTexts(lines[..n + 1]) == (if lines[0].Stdout? then [lines[0].text] else []) + StdoutTexts(lines[1..][..n])
    ensures StderrEvents(lines[..n + 1]) == (if lines[0].Stderr? then [lines[0].event] else []) + StderrEvents(lines[1..][..n])
  {
    assert lines[..n + 1][1..] == lines[1..][..n];
  }

  /** A clean first line lengthens the clean prefix by one. */
  lemma CleanPrefixStep(lines: seq<Line>, errorIds: set<string>, c: Consumer)
    requires |lines| > 0 && LineFailure(lines[0], errorIds, c).None?
    ensures var m := CleanPrefix(lines[1..], errorIds, c);
            && CleanPrefix(lines, errorIds, c) == m + 1
            && (m < |lines[1..]| ==> lines[1..][m] == lines[m + 1])
  {
  }

  /** The capture list receives exactly the stdout texts of the clean prefix, in order. */
  lemma {:induction false} RouteOutput(lines: seq<Line>, output: Option<seq<string>>, errorIds: set<string>, c: Consumer)
    ensures var n := CleanPrefix(lines, errorIds, c);
            Route(lines, output, errorIds, c).output
            == (if output.Some? then Some(output.value + StdoutTexts(lines[..n])) else None)
    decreases |lines|
  {
    var n := CleanPrefix(lines, errorIds, c);
    if |lines| == 0 {
      assert lines[..n] == [];
      assert output.Some? ==> output.value + StdoutTexts([]) == output.value;
    } else if LineFailure(lines[0], errorIds, c).Some? {
      RouteStop(lines, output, errorIds, c);
      assert lines[..n] == [];
      assert output.Some? ==> output.value + StdoutTexts([]) == output.value;
    } else {
      var output' := if lines[0].Stdout? && output.Some? then Some(output.value + [lines[0].text]) else output;
      RouteOutput(lines[1..], output', errorIds, c);
      RouteOutputStep(lines, output, errorIds, c);
    }
  }

  /** The inductive step of `RouteOutput`: a clean first line adds its own text in front. */
  lemma RouteOutputStep(lines: seq<Line>, output: Option<seq<string>>, errorIds: set<string>, c: Consumer)
    requires |lines| > 0 && LineFailure(lines[0], errorIds, c).None?
    requires var output' := if lines[0].Stdout? && output.Some? then Some(output.value + [lines[0].text]) else output;
             var m := CleanPrefix(lines[1..], errorIds, c);
             Route(lines[1..], output', errorIds, c).output
             == (if output'.Some? then Some(output'.value + StdoutTexts(lines[1..][..m])) else None)
    ensures var n := CleanPrefix(lines, errorIds, c);
            Route(lines, output, errorIds, c).output
            == (if output.Some? then Some(output.value + StdoutTexts(lines[..n])) else None)
  {
    var line := lines[0];
    var output' := if line.Stdout? && output.Some? then Some(output.value + [line.text]) else output;
    var m := CleanPrefix(lines[1..], errorIds, c);
    RouteStep(lines, output, errorIds, c);
    CleanPrefixStep(lines, errorIds, c);
    PrefixCons(lines, m);
    if output.Some? {
      var head := if line.Stdout? then [line.text] else [];
      var tail := StdoutTexts(lines[1..][..m]);
      calc {
        output'.value + tail;
        (output.value + head) + tail;
        output.value + (head + tail);
      }
    }
  }

  /**
    The consumer receives exactly the stderr messages of the clean prefix, in
    order, plus the first unclean line's message when it was the consumer
    (not `parse_json`) that raised on it.
   */
  lemma {:induction false} RouteYielded(lines: seq<Line>, output: Option<seq<string>>, errorIds: set<string>, c: Consumer)
    ensures var n := CleanPrefix(lines, errorIds, c);
            Route(lines, output, errorIds, c).yielded
            == StderrEvents(lines[..n])
               + (if n < |lines| then ConsumerSaw(lines[n], errorIds) else [])
    decreases |lines|
  {
    var n := CleanPrefix(lines, errorIds, c);
    if |lines| == 0 {
      assert lines[..n] == [];
    } else if LineFailure(lines[0], errorIds, c).Some? {
      RouteStop(lines, output, errorIds, c);
      assert lines[..n] == [];
      assert StderrEvents([]) == [];
    } else {
      var output' := if lines[0].Stdout? && output.Some? then Some(output.value + [lines[0].text]) else output;
      RouteYielded(lines[1..], output', errorIds, c);
      RouteYieldedStep(lines, output, errorIds, c);
    }
  }

  /** The inductive step of `RouteYielded`: a clean first line adds its own message in front. */
  lemma RouteYieldedStep(lines: seq<Line>, output: Option<seq<string>>, errorIds: set<string>, c: Consumer)
    requires |lines| > 0 && LineFailure(lines[0], errorIds, c).None?
    requires var output' := if lines[0].Stdout? && output.Some? then Some(output.value + [lines[0].text]) else output;
             var m := CleanPrefix(lines[1..], errorIds, c);
             Route(lines[1..], output', errorIds, c).yielded
             == StderrEvents(lines[1..][..m]) + (if m < |lines[1..]| then ConsumerSaw(lines[1..][m], errorIds) else [])
    ensures var n := CleanPrefix(lines, errorIds, c);
            Route(lines, output, errorIds, c).yielded
            == StderrEvents(lines[..n]) + (if n < |lines| then ConsumerSaw(lines[n], errorIds) else [])
  {
    var line := lines[0];
    var output' := if line.Stdout? && output.Some? then Some(output.value + [line.text]) else output;
    var m := CleanPrefix(lines[1..], errorIds, c);
    RouteStep(lines, output, errorIds, c);
    CleanPrefixStep(lines, errorIds, c);
    PrefixCons(lines, m);
    var head := if line.Stderr? then [line.event] else [];
    var tail := StderrEvents(lines[1..][..m]);
    var stop := if m + 1 < |lines| then ConsumerSaw(lines[m + 1], errorIds) else [];
    ConsStep(Route(lines, output, errorIds, c).yielded, head, Route(lines[1..], output', errorIds, c).yielded,
             tail, stop, StderrEvents(lines[..m + 1]));
  }

  /** Associativity, in the shape the inductive steps use it. */
  lemma ConsStep<T>(whole: seq<T>, head: seq<T>, rest: seq<T>, tail: seq<T>, stop: seq<T>, prefix: seq<T>)
    requires whole == head + rest && rest == tail + stop && prefix == head + tail
    ensures whole == prefix + stop
  {
  }

  /**
    `Route` against the reference definitions. Let `n` be the length of the
    clean prefix. The loop fails exactly when `n` is short of the whole
    sequence, and then with the exception of line `n`. The capture list
    receives exactly the stdout texts of the clean prefix, in order, and
    nothing after it; the consumer receives exactly the stderr messages of
    the clean prefix, in order, plus line `n`'s message when it was the
    consumer (not `parse_json`) that raised on it.
   */
  lemma RouteSpec(lines: seq<Line>, output: Option<seq<string>>, errorIds: set<string>, c: Consumer)
    ensures var n := CleanPrefix(lines, errorIds, c);
            var d := Route(lines, output, errorIds, c);
            && (d.failure.None? <==> n == |lines|)
            && (n < |lines| ==> d.failure == LineFailure(lines[n], errorIds, c))
            && d.output == (if output.Some? then Some(output.value + StdoutTexts(lines[..n])) else None)
            && d.yielded == StderrEvents(lines[..n])
                            + (if n < |lines| then ConsumerSaw(lines[n], errorIds) else [])
  {
    RouteFailure(lines, output, errorIds, c);
    RouteOutput(lines, output, errorIds, c);
    RouteYielded(lines, output, errorIds, c);
  }

  /**
    With no fatal message and a consumer that raises nothing, every stdout
    line lands in the capture list and every stderr message is yielded, each
    stream in its own arrival order.
   */
  lemma RouteComplete(lines: seq<Line>, output: seq<string>, errorIds: set<string>)
    requires forall i :: 0 <= i < |lines| && lines[i].Stderr? ==> !IsFatal(lines[i].event, errorIds)
    ensures Route(lines, Some(output), errorIds, Collect)
         == Drained(StderrEvents(lines), Some(output + StdoutTexts(lines)), None)
  {
    RouteSpec(lines, Some(output), errorIds, Collect);
    CleanPrefixAll(lines, errorIds);
    assert lines[..|lines|] == lines;
  }

  lemma {:induction false} CleanPrefixAll(lines: seq<Line>, errorIds: set<string>)
    requires forall i :: 0 <= i < |lines| && lines[i].Stderr? ==> !IsFatal(lines[i].event, errorIds)
    ensures CleanPrefix(lines, errorIds, Collect) == |lines|
    decreases |lines|
  {
    if |lines| > 0 {
      assert forall i :: 0 <= i < |lines[1..]| && lines[1..][i].Stderr? ==> !IsFatal(lines[1..][i].event, errorIds) by {
        forall i | 0 <= i < |lines[1..]| && lines[1..][i].Stderr? ensures !IsFatal(lines[1..][i].event, errorIds) {
          assert lines[1..][i] == lines[i + 1];
        }
      }
      CleanPrefixAll(lines[1..], errorIds);
    }
  }

  /**
    The first line that raises ends the sequence: its exception propagates,
    the consumer has received the stderr messages before it (and the line's
    own message if the consumer raised on it), and the capture list holds
    the stdout texts before it.
   */
  lemma RouteStopsAt(pre: seq<Line>, line: Line, post: seq<Line>, output: Option<seq<string>>, errorIds: set<string>, c: Consumer)
    requires CleanPrefix(pre, errorIds, c) == |pre|
    requires LineFailure(line, errorIds, c).Some?
    ensures var d := Route(pre + [line] + post, output, errorIds, c);
            && d.failure == LineFailure(line, errorIds, c)
            && d.yielded == StderrEvents(pre) + ConsumerSaw(line, errorIds)
            && d.output == (if output.Some? then Some(output.value + StdoutTexts(pre)) else None)
  {
    var lines := pre + [line] + post;
    CleanPrefixAppend(pre, [line] + post, errorIds, c);
    assert lines == pre + ([line] + post);
    RouteSpec(lines, output, errorIds, c);
    assert lines[..|pre|] == pre;
    assert lines[|pre|] == line;
  }

  /**
    A fatal message ends the sequence: it raises `BorgError` with its id, is
    not itself yielded, and nothing after it is yielded or captured.
   */
  lemma FatalMessageEndsRun(pre: seq<Line>, ev: Event, post: seq<Line>, output: Option<seq<string>>, errorIds: set<string>, c: Consumer)
    requires CleanPrefix(pre, errorIds, c) == |pre|
    requires IsFatal(ev, errorIds)
    ensures var d := Route(pre + [Stderr(ev)] + post, output, errorIds, c);
            && d.failure == Some(BorgError(ev.msgid.value, ev.payload))
            && d.yielded == StderrEvents(pre)
            && d.output == (if output.Some? then Some(output.value + StdoutTexts(pre)) else None)
  {
    RouteStopsAt(pre, Stderr(ev), post, output, errorIds, c);
    assert StderrEvents(pre) + [] == StderrEvents(pre);
  }

  lemma {:induction false} CleanPrefixAppend(pre: seq<Line>, post: seq<Line>, errorIds: set<string>, c: Consumer)
    requires CleanPrefix(pre, errorIds, c) == |pre|
    ensures CleanPrefix(pre + post, errorIds, c) == |pre| + CleanPrefix(post, errorIds, c)
    decreases |pre|
  {
    if |pre| == 0 {
      assert pre + post == post;
    } else {
      assert (pre + post)[0] == pre[0];
      assert (pre + post)[1..] == pre[1..] + post;
      CleanPrefixAppend(pre[1..], post, errorIds, c);
    }
  }

  /** The outcome of one call to `_run`, consumed to its end or to its first exception. */
  datatype RunResult = RunResult(
    borg: Borg,
    /** The argument vector handed to `Popen`, if it was reached. */
    argv: Option<seq<string>>,
    yielded: seq<Event>,
    output: Option<seq<string>>,
    /** The generator's return value (`output`), or the exception it ended with. */
    outcome: Result<Option<seq<string>>>)

  /**
    `Borg._run(command, options, env, progress, output)`, driven by consumer
    `c`. The guard refuses a second run while one is active. The running flag
    is set only once `Popen` has returned, and cleared only when the line
    sequence is exhausted without an exception; an exception from
    `parse_json` or from the consumer propagates with the flag still set.
    `dryrun` is stored by the adapter but `_run` never reads it.
   */
  function Run(b: Borg, binary: string, command: string, options: seq<string>, env: EnvArg,
               progress: bool, output: Option<seq<string>>, proc: Process,
               errorIds: set<string>, c: Consumer): (r: RunResult)
    ensures r.borg.dryrun == b.dryrun && r.borg.verbose == b.verbose
    ensures b.running ==> r == RunResult(b, None, [], output, Err(RuntimeError("")))
    ensures !b.running ==> r.argv == Some(CommandLine(binary, command, options, progress, b.verbose))
    ensures !b.running && (env.NotAMapping? || !proc.launches) ==> !r.borg.running && r.yielded == [] && r.outcome.Err?
    ensures r.outcome.Ok? <==> !b.running && !env.NotAMapping? && proc.launches
                               && CleanPrefix(proc.lines, errorIds, c) == |proc.lines|
    ensures r.outcome.Ok? ==> !r.borg.running && r.outcome.value == r.output
    ensures r.borg.running <==> b.running || (r.outcome.Err? && !env.NotAMapping? && proc.launches)
    ensures !b.running && !env.NotAMapping? && proc.launches ==>
              var n := CleanPrefix(proc.lines, errorIds, c);
              && (n < |proc.lines| ==> r.outcome == Err(LineFailure(proc.lines[n], errorIds, c).value))
              && r.output == (if output.Some? then Some(output.value + StdoutTexts(proc.lines[..n])) else None)
              && r.yielded == StderrEvents(proc.lines[..n])
                              + (if n < |proc.lines| then ConsumerSaw(proc.lines[n], errorIds) else [])
  {
    match Guard(b.running, false)
    case Err(e) => RunResult(b, None, [], output, Err(e))
    case Ok(_) =>
      var argv := CommandLine(binary, command, options, progress, b.verbose);
      if env.NotAMapping? then RunResult(b, Some(argv), [], output, Err(EnvironmentRejected))
      else if !proc.launches then RunResult(b, Some(argv), [], output, Err(OSError))
      else
        var d := Route(proc.lines, output, errorIds, c);
        RouteSpec(proc.lines, output, errorIds, c);
        match d.failure
        case Some(e) => RunResult(b.(running := true), Some(argv), d.yielded, d.output, Err(e))
        case None => RunResult(b.(running := false), Some(argv), d.yielded, d.output, Ok(d.output))
  }

  /**
    A run whose lines reach one that raises ends with that line's exception,
    after the consumer received the messages before it (and the line's own
    message if the consumer raised on it), with the adapter still running.
   */
  lemma RunStopsAt(b: Borg, binary: string, command: string, options: seq<string>, env: EnvArg,
                   progress: bool, output: Option<seq<string>>, pre: seq<Line>, line: Line, post: seq<Line>,
                   errorIds: set<string>, c: Consumer)
    requires !b.running && !env.NotAMapping?
    requires CleanPrefix(pre, errorIds, c) == |pre|
    requires LineFailure(line, errorIds, c).Some?
    ensures var r := Run(b, binary, command, options, env, progress, output, Process(true, pre + [line] + post), errorIds, c);
            && r.outcome == Err(LineFailure(line, errorIds, c).value)
            && r.yielded == StderrEvents(pre) + ConsumerSaw(line, errorIds)
            && r.borg.running
  {
    var lines := pre + [line] + post;
    RouteStopsAt(pre, line, post, output, errorIds, c);
    var d := Route(lines, output, errorIds, c);
    assert d.failure.Some?;
    assert Run(b, binary, command, options, env, progress, output, Process(true, lines), errorIds, c)
        == RunResult(b.(running := true), Some(CommandLine(binary, command, options, progress, b.verbose)),
                     d.yielded, d.output, Err(d.failure.value));
  }

  /** Two runs one after the other on the same adapter both go through and leave it idle. */
  lemma SequentialRuns(b: Borg, binary: string, command: string, options: seq<string>, output: Option<seq<string>>,
                       p1: Process, p2: Process, errorIds: set<string>, c: Consumer)
    requires !b.running
    requires p1.launches && CleanPrefix(p1.lines, errorIds, c) == |p1.lines|
    requires p2.launches && CleanPrefix(p2.lines, errorIds, c) == |p2.lines|
    ensures var r1 := Run(b, binary, command, options, Inherit, true, output, p1, errorIds, c);
            var r2 := Run(r1.borg, binary, command, options, Inherit, true, output, p2, errorIds, c);
            && r1.outcome.Ok? && !r1.borg.running
            && r2.outcome.Ok? && !r2.borg.running
  {
  }

  /**
    A run that ends in an exception after borg started leaves the flag set,
    so every later run on the same adapter is refused by the guard.
   */
  lemma FailedRunBlocksLaterRuns(b: Borg, binary: string, command: string, options: seq<string>, env: EnvArg,
                                 progress: bool, output: Option<seq<string>>, p1: Process, p2: Process,
                                 errorIds: set<string>, c: Consumer)
    requires !b.running && !env.NotAMapping? && p1.launches
    requires CleanPrefix(p1.lines, errorIds, c) < |p1.lines|
    ensures var r1 := Run(b, binary, command, options, env, progress, output, p1, errorIds, c);
            && r1.borg.running
            && Run(r1.borg, binary, command, options, env, progress, output, p2, errorIds, c).outcome
               == Err(RuntimeError(""))
  {
  }

  // ---------------------------------------------------------------------
  // Signals and prompts

  const SIGINT := 2
  const SIGTERM := 15

  /**
    `Borg._signal(sig)`: forwards the signal to the child while running
    (the body repeats the guard's check); otherwise `RuntimeError()`.
    The result is the signal delivered.
   */
  function SendSignal(b: Borg, sig: int): (r: Result<int>)
    ensures r.Ok? <==> b.running
    ensures r.Ok? ==> r.value == sig
    ensures r.Err? ==> r.error == RuntimeError("")
  {
    match Guard(b.running, true)
    case Err(e) => Err(e)
    case Ok(_) => if !b.running then Err(RuntimeError("")) else Ok(sig)
  }

  /** `Borg._interrupt`. */
  function Interrupt(b: Borg): (r: Result<int>)
    ensures r.Ok? <==> b.running
    ensures r.Ok? ==> r.value == SIGINT
  {
    SendSignal(b, SIGINT)
  }

  /** `Borg._terminate`. */
  function Terminate(b: Borg): (r: Result<int>)
    ensures r.Ok? <==> b.running
    ensures r.Ok? ==> r.value == SIGTERM
  {
    SendSignal(b, SIGTERM)
  }

  /**
    `Borg._reply(answer)` (and `_yes`, `_no`): guarded like `_signal`, and
    unimplemented past the guard.
   */
  function Reply(b: Borg, answer: string): (r: Result<()>)
    ensures r.Err?
    ensures r.error == (if b.running then NotImplementedError else RuntimeError(""))
  {
    match Guard(b.running, true)
    case Err(e) => Err(e)
    case Ok(_) => Err(NotImplementedError)
  }

  /**
    A signal is refused by an adapter that has not started a run and by one
    whose run ended cleanly, and is delivered by a running adapter. (`Run`
    is one step here, so no state in the middle of a run is related to it.)
   */
  lemma SignalsDuringRun(b: Borg, binary: string, command: string, options: seq<string>,
                         progress: bool, output: Option<seq<string>>, proc: Process,
                         errorIds: set<string>, c: Consumer, sig: int)
    requires !b.running && proc.launches
    ensures SendSignal(b, sig).Err?
    ensures SendSignal(b.(running := true), sig) == Ok(sig)
    ensures var r := Run(b, binary, command, options, Inherit, progress, output, proc, errorIds, c);
            r.outcome.Ok? ==> SendSignal(r.borg, sig).Err?
  {
  }
}
