/**
  The borg subcommands `Borg` implements: `create`, `list` and `prune`. Each
  validates its arguments, builds the option list for borg, and drives `_run`
  with a loop that refuses interactive prompts.

  The option builders are specified by what the decoder `Argv.Parse` reads
  back from their output, against a reference list of arguments written out
  per subcommand. The `with repo:` block around each loop is left out:
  `Repository` defines no context-manager methods.
 */
module Commands {
  import opened Errors
  import opened Text
  import opened Argv
  import opened Repositories
  import opened Events
  import opened BorgAdapter

  /** An option with its value, present only when `present` holds. */
  function OptionalOpt(present: bool, flag: string, value: string): seq<Arg> {
    if present then [Opt(flag, value)] else []
  }

  lemma RenderOptionalOpt(present: bool, flag: string, value: string)
    ensures Render(OptionalOpt(present, flag, value)) == (if present then [flag, value] else [])
  {
    if present {
      RenderSingle(Opt(flag, value));
    }
  }

  lemma OptionalOptWellFormed(present: bool, flag: string, value: string)
    requires OptionLike(flag) && TakesValue(flag)
    ensures AllWellFormed(OptionalOpt(present, flag, value))
  {
  }

  // ---------------------------------------------------------------------
  // create

  const NoIncludesMessage := "No paths given to include in the archive!"

  /**
    What the `create` options mean: the repository options for
    creation, `--stats` when asked for, one `--exclude` per pattern, the
    archive location, and the paths to include.
   */
  function CreateArgs(repo: Repository, includes: seq<string>, excludes: seq<string>, prefix: string, stats: bool): seq<Arg> {
    RepoOptions(repo, true)
    + (if stats then [Switch("--stats")] else [])
    + Repeated("--exclude", excludes)
    + [Pos(Location(repo, prefix))]
    + Positionals(includes)
  }

  /**
    The validation and option building of `Borg.create`: no include paths is
    a `ValueError` before anything runs; otherwise the options render the
    reference arguments, end with the includes, and name the archive just
    before them.
   */
  function CreateOptions(repo: Repository, includes: seq<string>, excludes: seq<string>, prefix: string, stats: bool): (r: Result<seq<string>>)
    ensures r.Err? <==> |includes| == 0
    ensures r.Err? ==> r.error == ValueError(NoIncludesMessage)
    ensures r.Ok? ==> r.value == Render(CreateArgs(repo, includes, excludes, prefix, stats))
    ensures r.Ok? ==> && |r.value| > |includes|
                      && r.value[|r.value| - |includes|..] == includes
                      && r.value[|r.value| - |includes| - 1] == Location(repo, prefix)
  {
    if |includes| == 0 then Err(ValueError(NoIncludesMessage))
    else
      var options := BorgArgs(repo, true)
        + (if stats then ["--stats"] else [])
        + Pairs("--exclude", excludes)
        + [Location(repo, prefix)]
        + includes;
      CreateOptionsRendered(repo, includes, excludes, prefix, stats);
      Ok(options)
  }

  lemma CreateOptionsRendered(repo: Repository, includes: seq<string>, excludes: seq<string>, prefix: string, stats: bool)
    ensures Render(CreateArgs(repo, includes, excludes, prefix, stats))
         == BorgArgs(repo, true)
            + (if stats then ["--stats"] else [])
            + Pairs("--exclude", excludes)
            + [Location(repo, prefix)]
            + includes
  {
    var a := RepoOptions(repo, true);
    var s: seq<Arg> := if stats then [Switch("--stats")] else [];
    var e := Repeated("--exclude", excludes);
    var l := [Pos(Location(repo, prefix))];
    var i := Positionals(includes);
    RenderAppend(a + s + e + l, i);
    RenderAppend(a + s + e, l);
    RenderAppend(a + s, e);
    RenderAppend(a, s);
    if stats {
      RenderSingle(Switch("--stats"));
    }
    RenderSingle(Pos(Location(repo, prefix)));
  }

  /**
    Decoded by `Argv.Parse`, the `create` options are exactly the reference
    arguments, provided the repository path and the include paths do not
    look like options (an include such as `-x` would be read as a switch).
   */
  lemma CreateOptionsDecode(repo: Repository, includes: seq<string>, excludes: seq<string>, prefix: string, stats: bool)
    requires |includes| > 0
    requires !OptionLike(repo.path)
    requires forall i :: 0 <= i < |includes| ==> !OptionLike(includes[i])
    ensures Parse(CreateOptions(repo, includes, excludes, prefix, stats).value)
         == CreateArgs(repo, includes, excludes, prefix, stats)
  {
    CreateArgsWellFormed(repo, includes, excludes, prefix, stats);
    ParseRender(CreateArgs(repo, includes, excludes, prefix, stats));
  }

  lemma CreateArgsWellFormed(repo: Repository, includes: seq<string>, excludes: seq<string>, prefix: string, stats: bool)
    requires !OptionLike(repo.path)
    requires forall i :: 0 <= i < |includes| ==> !OptionLike(includes[i])
    ensures AllWellFormed(CreateArgs(repo, includes, excludes, prefix, stats))
  {
    var a := RepoOptions(repo, true);
    var s: seq<Arg> := if stats then [Switch("--stats")] else [];
    var e := Repeated("--exclude", excludes);
    var l := [Pos(Location(repo, prefix))];
    var i := Positionals(includes);
    NotKeepOption("--stats");
    RepeatedWellFormed("--exclude", excludes);
    assert !OptionLike(Location(repo, prefix)) by {
      if |repo.path| == 0 {
        assert Location(repo, prefix)[0] == ':';
      } else {
        assert Location(repo, prefix)[0] == repo.path[0];
      }
    }
    AllWellFormedAppend(a, s);
    AllWellFormedAppend(a + s, e);
    AllWellFormedAppend(a + s + e, l);
    AllWellFormedAppend(a + s + e + l, i);
  }

  /** The loop of `create`: prompts raise `RuntimeError`, progress messages `NotImplementedError`. */
  function CreateLoop(promptIds: set<string>): Consumer {
    CommandLoop(promptIds, true)
  }

  /**
    `Borg.create`, with the `_run` call the code evidently means (see
    `CreateRunAsWritten`): progress is requested exactly when a progress
    callback is given, the environment is inherited, and no output is
    captured. Invalid arguments end the call before any run, leaving the
    adapter untouched.
   */
  function Create(b: Borg, binary: string, repo: Repository, includes: seq<string>, excludes: seq<string>,
                  prefix: string, progressCb: bool, stats: bool, proc: Process,
                  errorIds: set<string>, promptIds: set<string>): (r: RunResult)
    ensures |includes| == 0 ==> r == RunResult(b, None, [], None, Err(ValueError(NoIncludesMessage)))
    ensures |includes| > 0 && !b.running ==>
              r.argv == Some(CommandLine(binary, "create", CreateOptions(repo, includes, excludes, prefix, stats).value,
                                         progressCb, b.verbose))
    ensures r.outcome.Ok? <==> && |includes| > 0 && !b.running && proc.launches
                               && CleanPrefix(proc.lines, errorIds, CreateLoop(promptIds)) == |proc.lines|
    ensures r.outcome.Ok? ==> r.outcome.value.None? && !r.borg.running
  {
    match CreateOptions(repo, includes, excludes, prefix, stats)
    case Err(e) => RunResult(b, None, [], None, Err(e))
    case Ok(options) =>
      Run(b, binary, "create", options, Inherit, progressCb, None, proc, errorIds, CreateLoop(promptIds))
  }

  lemma CreateRuns(b: Borg, binary: string, repo: Repository, includes: seq<string>, excludes: seq<string>,
                   prefix: string, progressCb: bool, stats: bool, proc: Process,
                   errorIds: set<string>, promptIds: set<string>)
    requires |includes| > 0
    ensures Create(b, binary, repo, includes, excludes, prefix, progressCb, stats, proc, errorIds, promptIds)
         == Run(b, binary, "create", CreateOptions(repo, includes, excludes, prefix, stats).value,
                Inherit, progressCb, None, proc, errorIds, CreateLoop(promptIds))
  {
  }

  /**
    A log message with a prompt id (and not an error id) ends `create` with
    `RuntimeError`, after the consumer received it, and leaves the adapter
    marked as running.
   */
  lemma CreatePromptRaises(b: Borg, binary: string, repo: Repository, includes: seq<string>, excludes: seq<string>,
                           prefix: string, progressCb: bool, stats: bool, pre: seq<Line>, ev: Event, post: seq<Line>,
                           errorIds: set<string>, promptIds: set<string>)
    requires |includes| > 0 && !b.running
    requires CleanPrefix(pre, errorIds, CreateLoop(promptIds)) == |pre|
    requires ev.kind == LogMessage && HasMsgId(ev) && ev.msgid.value in promptIds && ev.msgid.value !in errorIds
    ensures var r := Create(b, binary, repo, includes, excludes, prefix, progressCb, stats,
                            Process(true, pre + [Stderr(ev)] + post), errorIds, promptIds);
            && r.outcome == Err(RuntimeError(""))
            && r.yielded == StderrEvents(pre) + [ev]
            && r.borg.running
  {
    assert LineFailure(Stderr(ev), errorIds, CreateLoop(promptIds)) == Some(RuntimeError(""));
    var options := CreateOptions(repo, includes, excludes, prefix, stats).value;
    var proc := Process(true, pre + [Stderr(ev)] + post);
    CreateRuns(b, binary, repo, includes, excludes, prefix, progressCb, stats, proc, errorIds, promptIds);
    RunStopsAt(b, binary, "create", options, Inherit, progressCb, None, pre, Stderr(ev), post, errorIds, CreateLoop(promptIds));
  }

  /**
    A progress message ends `create` with `NotImplementedError`: the call to
    the progress callback after the `raise` is never reached.
   */
  lemma CreateProgressRaises(b: Borg, binary: string, repo: Repository, includes: seq<string>, excludes: seq<string>,
                             prefix: string, progressCb: bool, stats: bool, pre: seq<Line>, ev: Event, post: seq<Line>,
                             errorIds: set<string>, promptIds: set<string>)
    requires |includes| > 0 && !b.running
    requires CleanPrefix(pre, errorIds, CreateLoop(promptIds)) == |pre|
    requires ev.kind == ProgressMessage
    ensures var r := Create(b, binary, repo, includes, excludes, prefix, progressCb, stats,
                            Process(true, pre + [Stderr(ev)] + post), errorIds, promptIds);
            r.outcome == Err(NotImplementedError)
  {
    var options := CreateOptions(repo, includes, excludes, prefix, stats).value;
    assert LineFailure(Stderr(ev), errorIds, CreateLoop(promptIds)) == Some(NotImplementedError) by {
      assert |ev.kind| != |LogMessage|;
    }
    var proc := Process(true, pre + [Stderr(ev)] + post);
    CreateRuns(b, binary, repo, includes, excludes, prefix, progressCb, stats, proc, errorIds, promptIds);
    RunStopsAt(b, binary, "create", options, Inherit, progressCb, None, pre, Stderr(ev), post, errorIds, CreateLoop(promptIds));
  }

  /**
    The `_run` call of `create` as written: `bool(progress_cb)` lands in the
    `env` slot and `progress` keeps its default `True`. `Popen` rejects a
    `bool` environment before spawning.
   */
  function CreateRunAsWritten(b: Borg, binary: string, options: seq<string>, progressCb: bool, proc: Process,
                              errorIds: set<string>, promptIds: set<string>): (r: RunResult)
    ensures !b.running ==> r.outcome == Err(EnvironmentRejected) && r.yielded == [] && !r.borg.running
  {
    Run(b, binary, "create", options, NotAMapping, true, None, proc, errorIds, CreateLoop(promptIds))
  }

  /** A backup borg completes silently: as written the call fails before borg starts. */
  lemma CreateRunAsWrittenNeverStarts()
    ensures var b := NewBorg(false, false);
            var repo := Repository("r", "/backup/r", None, None, None);
            var options := CreateOptions(repo, ["/home"], [], "{hostname}", false).value;
            && Create(b, "/usr/bin/borg", repo, ["/home"], [], "{hostname}", false, false, Process(true, []), {}, {}).outcome == Ok(None)
            && CreateRunAsWritten(b, "/usr/bin/borg", options, false, Process(true, []), {}, {}).outcome == Err(EnvironmentRejected)
  {
  }

  // ---------------------------------------------------------------------
  // list

  const CombineMessage := "Cannot combine archive matching by prefix and glob pattern!"

  /** The message is not an f-string: its `{sort_by}` stays literal. */
  const InvalidSortMessage := "Invalid sorting criterion {sort_by} for file listing!"

  /** `'timestamp name id'.split()`. */
  const SortKeys: seq<string> := ["timestamp", "name", "id"]

  /** The `sort_by` argument: one key as a string, or a sequence of keys. */
  datatype SortBy = ByKey(key: string) | ByKeys(keys: seq<string>)

  /** The keys a `sort_by` argument asks for (`''` and `[]` ask for none). */
  function Requested(sortBy: SortBy): seq<string> {
    match sortBy
    case ByKey(k) => if k == "" then [] else [k]
    case ByKeys(ks) => ks
  }

  /**
    The `--sort-by` value of `list`, if any. For a string that is not a key,
    the code's fallback `all(s in keys for s in sort_by)` iterates over its
    characters; no key is one character long (`NoSingleCharacterKey`), so
    that fallback never accepts a string and it is an error here directly.
   */
  function SortValue(sortBy: SortBy): (r: Result<Option<string>>)
    ensures r.Ok? <==> forall i :: 0 <= i < |Requested(sortBy)| ==> Requested(sortBy)[i] in SortKeys
    ensures r.Err? ==> r.error == ValueError(InvalidSortMessage)
    ensures r.Ok? ==> (r.value.None? <==> Requested(sortBy) == [])
    ensures r.Ok? && r.value.Some? ==> Split(r.value.value, ',') == Requested(sortBy)
  {
    match sortBy
    case ByKey(k) =>
      if k == "" then Ok(None)
      else if k in SortKeys then
        SplitNoSeparator(k, ',');
        Ok(Some(k))
      else
        assert Requested(sortBy)[0] == k;
        Err(ValueError(InvalidSortMessage))
    case ByKeys(ks) =>
      assert Requested(sortBy) == ks;
      if ks == [] then Ok(None)
      else if forall i :: 0 <= i < |ks| ==> ks[i] in SortKeys then
        assert forall i :: 0 <= i < |ks| ==> ',' !in ks[i];
        SplitJoin(ks, ',');
        Ok(Some(Join(ks, ',')))
      else Err(ValueError(InvalidSortMessage))
  }

  /** No sorting key is a single character, so a string's characters are never all keys. */
  lemma NoSingleCharacterKey(k: string)
    requires k != ""
    ensures !(forall i :: 0 <= i < |k| ==> [k[i]] in SortKeys)
  {
    assert [k[0]] !in SortKeys;
  }

  /** `' '.join(f'{{{k}}}' for k in additional_keys)`: one `{key}` placeholder per key. */
  function Braced(keys: seq<string>): (items: seq<string>)
    ensures |items| == |keys|
    ensures forall i :: 0 <= i < |keys| ==> items[i] == "{" + keys[i] + "}"
    decreases |keys|
  {
    if |keys| == 0 then [] else ["{" + keys[0] + "}"] + Braced(keys[1..])
  }

  function FormatValue(keys: seq<string>): string {
    Join(Braced(keys), ' ')
  }

  /** The `--format` value splits back into the placeholders, one per key, when no key holds a space. */
  lemma FormatValueSplits(keys: seq<string>)
    requires |keys| > 0
    requires forall i :: 0 <= i < |keys| ==> ' ' !in keys[i]
    ensures Split(FormatValue(keys), ' ') == Braced(keys)
  {
    var items := Braced(keys);
    forall i | 0 <= i < |keys| ensures ' ' !in items[i] {
      assert items[i] == "{" + keys[i] + "}";
    }
    SplitJoin(items, ' ');
  }

  /**
    What the `list` options mean: the repository options, then each
    selection present, in the order the code appends them.
   */
  function ListArgs(repo: Repository, prefix: Option<string>, glob: Option<string>, first: int, last: int,
                    sort: Option<string>, additionalKeys: seq<string>): seq<Arg> {
    RepoOptions(repo, false)
    + OptionalOpt(Truthy(prefix), "--prefix", if prefix.Some? then prefix.value else "")
    + OptionalOpt(Truthy(glob), "--glob-archives", if glob.Some? then glob.value else "")
    + OptionalOpt(sort.Some?, "--sort-by", if sort.Some? then sort.value else "")
    + OptionalOpt(first != 0, "--first", DecimalString(first))
    + OptionalOpt(last != 0, "--last", DecimalString(last))
    + OptionalOpt(|additionalKeys| > 0, "--format", FormatValue(additionalKeys))
  }

  /**
    The validation and option building of `Borg.list`, with the undefined
    name `short` read as false (see `ListOptionsAsWritten`). Matching by both
    prefix and glob is refused first, an invalid sorting criterion second;
    every value passed decodes as the value of its own option.
   */
  function ListOptions(repo: Repository, prefix: Option<string>, glob: Option<string>, first: int, last: int,
                       sortBy: SortBy, additionalKeys: seq<string>): (r: Result<seq<string>>)
    ensures r.Err? <==> (Truthy(prefix) && Truthy(glob)) || SortValue(sortBy).Err?
    ensures r.Err? ==> r.error == ValueError(if Truthy(prefix) && Truthy(glob) then CombineMessage else InvalidSortMessage)
    ensures r.Ok? ==> Parse(r.value) == ListArgs(repo, prefix, glob, first, last, SortValue(sortBy).value, additionalKeys)
  {
    if Truthy(prefix) && Truthy(glob) then Err(ValueError(CombineMessage))
    else
      match SortValue(sortBy)
      case Err(e) => Err(e)
      case Ok(sort) =>
        var options := BorgArgs(repo, false)
          + (if Truthy(prefix) then ["--prefix", prefix.value] else [])
          + (if Truthy(glob) then ["--glob-archives", glob.value] else [])
          + (if sort.Some? then ["--sort-by", sort.value] else [])
          + (if first != 0 then ["--first", DecimalString(first)] else [])
          + (if last != 0 then ["--last", DecimalString(last)] else [])
          + (if |additionalKeys| > 0 then ["--format", FormatValue(additionalKeys)] else []);
        ListOptionsDecode(repo, prefix, glob, first, last, sort, additionalKeys);
        Ok(options)
  }

  lemma ListOptionsDecode(repo: Repository, prefix: Option<string>, glob: Option<string>, first: int, last: int,
                          sort: Option<string>, additionalKeys: seq<string>)
    ensures Parse(BorgArgs(repo, false)
                  + (if Truthy(prefix) then ["--prefix", prefix.value] else [])
                  + (if Truthy(glob) then ["--glob-archives", glob.value] else [])
                  + (if sort.Some? then ["--sort-by", sort.value] else [])
                  + (if first != 0 then ["--first", DecimalString(first)] else [])
                  + (if last != 0 then ["--last", DecimalString(last)] else [])
                  + (if |additionalKeys| > 0 then ["--format", FormatValue(additionalKeys)] else []))
         == ListArgs(repo, prefix, glob, first, last, sort, additionalKeys)
  {
    ListOptionsRendered(repo, prefix, glob, first, last, sort, additionalKeys);
    ListArgsWellFormed(repo, prefix, glob, first, last, sort, additionalKeys);
    ParseRender(ListArgs(repo, prefix, glob, first, last, sort, additionalKeys));
  }

  lemma ListOptionsRendered(repo: Repository, prefix: Option<string>, glob: Option<string>, first: int, last: int,
                            sort: Option<string>, additionalKeys: seq<string>)
    ensures Render(ListArgs(repo, prefix, glob, first, last, sort, additionalKeys))
         == BorgArgs(repo, false)
            + (if Truthy(prefix) then ["--prefix", prefix.value] else [])
            + (if Truthy(glob) then ["--glob-archives", glob.value] else [])
            + (if sort.Some? then ["--sort-by", sort.value] else [])
            + (if first != 0 then ["--first", DecimalString(first)] else [])
            + (if last != 0 then ["--last", DecimalString(last)] else [])
            + (if |additionalKeys| > 0 then ["--format", FormatValue(additionalKeys)] else [])
  {
    var a := RepoOptions(repo, false);
    var p := OptionalOpt(Truthy(prefix), "--prefix", if prefix.Some? then prefix.value else "");
    var g := OptionalOpt(Truthy(glob), "--glob-archives", if glob.Some? then glob.value else "");
    var s := OptionalOpt(sort.Some?, "--sort-by", if sort.Some? then sort.value else "");
    var f := OptionalOpt(first != 0, "--first", DecimalString(first));
    var l := OptionalOpt(last != 0, "--last", DecimalString(last));
    var k := OptionalOpt(|additionalKeys| > 0, "--format", FormatValue(additionalKeys));
    ListArgsRendered(a, p, g, s, f, l, k);
    RenderOptionalOpt(Truthy(prefix), "--prefix", if prefix.Some? then prefix.value else "");
    RenderOptionalOpt(Truthy(glob), "--glob-archives", if glob.Some? then glob.value else "");
    RenderOptionalOpt(sort.Some?, "--sort-by", if sort.Some? then sort.value else "");
    RenderOptionalOpt(first != 0, "--first", DecimalString(first));
    RenderOptionalOpt(last != 0, "--last", DecimalString(last));
    RenderOptionalOpt(|additionalKeys| > 0, "--format", FormatValue(additionalKeys));
  }

  lemma ListArgsWellFormed(repo: Repository, prefix: Option<string>, glob: Option<string>, first: int, last: int,
                           sort: Option<string>, additionalKeys: seq<string>)
    ensures AllWellFormed(ListArgs(repo, prefix, glob, first, last, sort, additionalKeys))
  {
    var a := RepoOptions(repo, false);
    var p := OptionalOpt(Truthy(prefix), "--prefix", if prefix.Some? then prefix.value else "");
    var g := OptionalOpt(Truthy(glob), "--glob-archives", if glob.Some? then glob.value else "");
    var s := OptionalOpt(sort.Some?, "--sort-by", if sort.Some? then sort.value else "");
    var f := OptionalOpt(first != 0, "--first", DecimalString(first));
    var l := OptionalOpt(last != 0, "--last", DecimalString(last));
    var k := OptionalOpt(|additionalKeys| > 0, "--format", FormatValue(additionalKeys));
    OptionalOptWellFormed(Truthy(prefix), "--prefix", if prefix.Some? then prefix.value else "");
    OptionalOptWellFormed(Truthy(glob), "--glob-archives", if glob.Some? then glob.value else "");
    OptionalOptWellFormed(sort.Some?, "--sort-by", if sort.Some? then sort.value else "");
    OptionalOptWellFormed(first != 0, "--first", DecimalString(first));
    OptionalOptWellFormed(last != 0, "--last", DecimalString(last));
    OptionalOptWellFormed(|additionalKeys| > 0, "--format", FormatValue(additionalKeys));
    AllWellFormedAppend(a, p);
    AllWellFormedAppend(a + p, g);
    AllWellFormedAppend(a + p + g, s);
    AllWellFormedAppend(a + p + g + s, f);
    AllWellFormedAppend(a + p + g + s + f, l);
    AllWellFormedAppend(a + p + g + s + f + l, k);
  }

  /** Rendering seven consecutive groups of arguments renders each in turn. */
  lemma ListArgsRendered(a: seq<Arg>, p: seq<Arg>, g: seq<Arg>, s: seq<Arg>, f: seq<Arg>, l: seq<Arg>, k: seq<Arg>)
    ensures Render(a + p + g + s + f + l + k)
         == Render(a) + Render(p) + Render(g) + Render(s) + Render(f) + Render(l) + Render(k)
  {
    RenderAppend(a + p + g + s + f + l, k);
    RenderAppend(a + p + g + s + f, l);
    RenderAppend(a + p + g + s, f);
    RenderAppend(a + p + g, s);
    RenderAppend(a + p, g);
    RenderAppend(a, p);
  }

  /**
    `list`'s option building as written: the test `if short:` reads a name
    that is defined nowhere, so every call that gets past the prefix/glob
    check raises `NameError`.
   */
  function ListOptionsAsWritten(repo: Repository, prefix: Option<string>, glob: Option<string>, first: int, last: int,
                                sortBy: SortBy, additionalKeys: seq<string>): (r: Result<seq<string>>)
    ensures r.Err?
    ensures !(Truthy(prefix) && Truthy(glob)) ==> r.error == NameError("short")
  {
    if Truthy(prefix) && Truthy(glob) then Err(ValueError(CombineMessage))
    else Err(NameError("short"))
  }

  /** A plain listing: the corrected options are accepted, the code as written fails. */
  lemma ListOptionsAsWrittenFails()
    ensures var repo := Repository("r", "/backup/r", None, None, None);
            && ListOptions(repo, None, None, 0, 0, ByKey(""), []) == Ok([])
            && ListOptionsAsWritten(repo, None, None, 0, 0, ByKey(""), []) == Err(NameError("short"))
  {
    var repo := Repository("r", "/backup/r", None, None, None);
    assert BorgArgs(repo, false) == [];
  }

  /** The loop of `list`: prompts raise `RuntimeError`; progress messages pass. */
  function ListLoop(promptIds: set<string>): Consumer {
    CommandLoop(promptIds, false)
  }

  /**
    `Borg.list` up to the decoding of its lines, with the `_run` call the
    code evidently means (see `ListRunAsWritten`): an empty capture list is
    passed as `output`. A listing that completes returns every stdout line
    of the delivered sequence, in order. Decoding each line as JSON (and building a data
    frame) is not part of this model.
   */
  function List(b: Borg, binary: string, repo: Repository, prefix: Option<string>, glob: Option<string>,
                first: int, last: int, sortBy: SortBy, additionalKeys: seq<string>, proc: Process,
                errorIds: set<string>, promptIds: set<string>): (r: RunResult)
    ensures ListOptions(repo, prefix, glob, first, last, sortBy, additionalKeys).Err? ==>
              r.argv.None? && r.borg == b && r.outcome.Err? && r.outcome.error.ValueError?
    ensures r.outcome.Ok? <==> && ListOptions(repo, prefix, glob, first, last, sortBy, additionalKeys).Ok?
                               && !b.running && proc.launches
                               && CleanPrefix(proc.lines, errorIds, ListLoop(promptIds)) == |proc.lines|
    ensures r.outcome.Ok? ==> r.outcome.value == Some(StdoutTexts(proc.lines))
  {
    match ListOptions(repo, prefix, glob, first, last, sortBy, additionalKeys)
    case Err(e) => RunResult(b, None, [], None, Err(e))
    case Ok(options) =>
      var r := Run(b, binary, "list", options, Inherit, true, Some([]), proc, errorIds, ListLoop(promptIds));
      assert r.outcome.Ok? ==> proc.lines[..|proc.lines|] == proc.lines;
      assert [] + StdoutTexts(proc.lines) == StdoutTexts(proc.lines);
      r
  }

  /**
    The `_run` call of `list` as written: the capture list lands in the
    `env` slot, so no output is captured and `Popen` rejects a list
    environment before spawning.
   */
  function ListRunAsWritten(b: Borg, binary: string, options: seq<string>, proc: Process,
                            errorIds: set<string>, promptIds: set<string>): (r: RunResult)
    ensures !b.running ==> r.outcome == Err(EnvironmentRejected) && r.yielded == [] && !r.borg.running
  {
    Run(b, binary, "list", options, NotAMapping, true, None, proc, errorIds, ListLoop(promptIds))
  }

  /** A repository with one archive: listed by the corrected call, lost by the call as written. */
  lemma ListRunAsWrittenLosesListing()
    ensures var b := NewBorg(false, false);
            var repo := Repository("r", "/backup/r", None, None, None);
            var proc := Process(true, [Stdout("{\"name\": \"a\"}")]);
            && List(b, "/usr/bin/borg", repo, None, None, 0, 0, ByKey(""), [], proc, {}, {}).outcome
               == Ok(Some(["{\"name\": \"a\"}"]))
            && ListRunAsWritten(b, "/usr/bin/borg", [], proc, {}, {}).outcome == Err(EnvironmentRejected)
  {
    var lines := [Stdout("{\"name\": \"a\"}")];
    assert StdoutTexts(lines) == ["{\"name\": \"a\"}"] by {
      assert lines[1..] == [];
    }
    var repo := Repository("r", "/backup/r", None, None, None);
    assert BorgArgs(repo, false) == [];
  }

  // ---------------------------------------------------------------------
  // prune

  const NoKeepMessage := "No archives to keep given for pruning!"

  /** One entry of the `keep` dictionary, in its iteration order: keep `number` archives per `interval`. */
  datatype Retention = Retention(interval: string, number: int)

  const KeepFlagPrefix := "--keep-"

  /** One `--keep-<interval> <number>` option per entry, in order. */
  function KeepArgs(keep: seq<Retention>): (args: seq<Arg>)
    ensures |args| == |keep|
    ensures forall i :: 0 <= i < |keep| ==>
              args[i] == Opt(KeepFlagPrefix + keep[i].interval, DecimalString(keep[i].number))
    decreases |keep|
  {
    if |keep| == 0 then []
    else [Opt(KeepFlagPrefix + keep[0].interval, DecimalString(keep[0].number))] + KeepArgs(keep[1..])
  }

  /** The loop `for interval, number in keep.items()` of `prune`. */
  function KeepPairs(keep: seq<Retention>): (ts: seq<string>)
    ensures ts == Render(KeepArgs(keep))
    decreases |keep|
  {
    if |keep| == 0 then []
    else
      assert KeepArgs(keep)[1..] == KeepArgs(keep[1..]);
      [KeepFlagPrefix + keep[0].interval, DecimalString(keep[0].number)] + KeepPairs(keep[1..])
  }

  lemma KeepArgsWellFormed(keep: seq<Retention>)
    ensures AllWellFormed(KeepArgs(keep))
  {
    forall i | 0 <= i < |keep| ensures WellFormed(KeepArgs(keep)[i]) {
      var f := KeepFlagPrefix + keep[i].interval;
      assert f[..|KeepFlagPrefix|] == KeepFlagPrefix;
    }
  }

  /** Each `--keep-` option gives back its interval and number. */
  lemma KeepRoundTrip(keep: seq<Retention>)
    ensures forall i :: 0 <= i < |keep| ==>
              && KeepArgs(keep)[i].flag[|KeepFlagPrefix|..] == keep[i].interval
              && ParseDecimal(KeepArgs(keep)[i].value) == Some(keep[i].number)
  {
    forall i | 0 <= i < |keep|
      ensures && KeepArgs(keep)[i].flag[|KeepFlagPrefix|..] == keep[i].interval
              && ParseDecimal(KeepArgs(keep)[i].value) == Some(keep[i].number)
    {
      DecimalRoundTrip(keep[i].number);
    }
  }

  /**
    What the `prune` options mean: the repository options, `--list`
    and `--stats` when verbose, the retention rules, the prefix if given,
    and the repository.
   */
  function PruneArgs(repo: Repository, keep: seq<Retention>, prefix: Option<string>, verbose: bool): seq<Arg> {
    RepoOptions(repo, false)
    + (if verbose then [Switch("--list"), Switch("--stats")] else [])
    + KeepArgs(keep)
    + OptionalOpt(Truthy(prefix), "--prefix", if prefix.Some? then prefix.value else "")
    + [Pos(repo.path)]
  }

  /**
    The validation and option building of `Borg.prune`, naming the
    repository passed in (see `PruneOptionsAsWritten`): no retention rule is
    a `ValueError`; otherwise the options render the reference arguments
    and end with the repository path.
   */
  function PruneOptions(repo: Repository, keep: seq<Retention>, prefix: Option<string>, verbose: bool): (r: Result<seq<string>>)
    ensures r.Err? <==> |keep| == 0
    ensures r.Err? ==> r.error == ValueError(NoKeepMessage)
    ensures r.Ok? ==> r.value == Render(PruneArgs(repo, keep, prefix, verbose))
    ensures r.Ok? ==> |r.value| > 0 && r.value[|r.value| - 1] == repo.path
  {
    if |keep| == 0 then Err(ValueError(NoKeepMessage))
    else
      var options := BorgArgs(repo, false)
        + (if verbose then ["--list", "--stats"] else [])
        + KeepPairs(keep)
        + (if Truthy(prefix) then ["--prefix", prefix.value] else [])
        + [repo.path];
      PruneOptionsRendered(repo, keep, prefix, verbose);
      Ok(options)
  }

  lemma PruneOptionsRendered(repo: Repository, keep: seq<Retention>, prefix: Option<string>, verbose: bool)
    ensures Render(PruneArgs(repo, keep, prefix, verbose))
         == BorgArgs(repo, false)
            + (if verbose then ["--list", "--stats"] else [])
            + KeepPairs(keep)
            + (if Truthy(prefix) then ["--prefix", prefix.value] else [])
            + [repo.path]
  {
    var a := RepoOptions(repo, false);
    var v: seq<Arg> := if verbose then [Switch("--list"), Switch("--stats")] else [];
    var k := KeepArgs(keep);
    var p := OptionalOpt(Truthy(prefix), "--prefix", if prefix.Some? then prefix.value else "");
    var r := [Pos(repo.path)];
    RenderAppend(a + v + k + p, r);
    RenderAppend(a + v + k, p);
    RenderAppend(a + v, k);
    RenderAppend(a, v);
    if verbose {
      assert Render(v) == ["--list", "--stats"] by {
        assert v[1..] == [Switch("--stats")];
        RenderSingle(Switch("--stats"));
      }
    }
    RenderOptionalOpt(Truthy(prefix), "--prefix", if prefix.Some? then prefix.value else "");
    RenderSingle(Pos(repo.path));
  }

  /**
    Decoded by `Argv.Parse`, the `prune` options are exactly the reference
    arguments, provided the repository path does not look like an option.
   */
  lemma PruneOptionsDecode(repo: Repository, keep: seq<Retention>, prefix: Option<string>, verbose: bool)
    requires |keep| > 0
    requires !OptionLike(repo.path)
    ensures Parse(PruneOptions(repo, keep, prefix, verbose).value) == PruneArgs(repo, keep, prefix, verbose)
  {
    PruneArgsWellFormed(repo, keep, prefix, verbose);
    ParseRender(PruneArgs(repo, keep, prefix, verbose));
  }

  lemma PruneArgsWellFormed(repo: Repository, keep: seq<Retention>, prefix: Option<string>, verbose: bool)
    requires !OptionLike(repo.path)
    ensures AllWellFormed(PruneArgs(repo, keep, prefix, verbose))
  {
    var a := RepoOptions(repo, false);
    var v: seq<Arg> := if verbose then [Switch("--list"), Switch("--stats")] else [];
    var k := KeepArgs(keep);
    var p := OptionalOpt(Truthy(prefix), "--prefix", if prefix.Some? then prefix.value else "");
    var r := [Pos(repo.path)];
    assert AllWellFormed(v) by {
      NotKeepOption("--list");
      NotKeepOption("--stats");
    }
    KeepArgsWellFormed(keep);
    OptionalOptWellFormed(Truthy(prefix), "--prefix", if prefix.Some? then prefix.value else "");
    AllWellFormedAppend(a, v);
    AllWellFormedAppend(a + v, k);
    AllWellFormedAppend(a + v + k, p);
    AllWellFormedAppend(a + v + k + p, r);
  }

  /**
    `prune`'s option building as written: the last option is
    `f"{self.repo}"`, and `Borg` has no attribute `repo`, so every call with
    a retention rule raises `AttributeError`.
   */
  function PruneOptionsAsWritten(repo: Repository, keep: seq<Retention>, prefix: Option<string>, verbose: bool): (r: Result<seq<string>>)
    ensures r.Err?
    ensures r.error == (if |keep| == 0 then ValueError(NoKeepMessage) else AttributeError("repo"))
  {
    if |keep| == 0 then Err(ValueError(NoKeepMessage))
    else Err(AttributeError("repo"))
  }

  /** Keeping seven daily archives: the corrected options name the repository, the code as written fails. */
  lemma PruneOptionsAsWrittenFails()
    ensures var repo := Repository("r", "/backup/r", None, None, None);
            var keep := [Retention("daily", 7)];
            && PruneOptions(repo, keep, None, false).Ok?
            && PruneOptions(repo, keep, None, false).value[|PruneOptions(repo, keep, None, false).value| - 1] == "/backup/r"
            && PruneOptionsAsWritten(repo, keep, None, false) == Err(AttributeError("repo"))
  {
  }

  /** The loop of `prune`: prompts raise `RuntimeError`; progress messages pass. */
  function PruneLoop(promptIds: set<string>): Consumer {
    CommandLoop(promptIds, false)
  }

  /**
    `Borg.prune`: `_run` with the default environment and progress, and no
    capture. Invalid arguments end the call before any run.
   */
  function Prune(b: Borg, binary: string, repo: Repository, keep: seq<Retention>, prefix: Option<string>,
                 verbose: bool, proc: Process, errorIds: set<string>, promptIds: set<string>): (r: RunResult)
    ensures |keep| == 0 ==> r == RunResult(b, None, [], None, Err(ValueError(NoKeepMessage)))
    ensures |keep| > 0 && !b.running ==>
              r.argv == Some(CommandLine(binary, "prune", PruneOptions(repo, keep, prefix, verbose).value, true, b.verbose))
    ensures r.outcome.Ok? <==> && |keep| > 0 && !b.running && proc.launches
                               && CleanPrefix(proc.lines, errorIds, PruneLoop(promptIds)) == |proc.lines|
    ensures r.outcome.Ok? ==> r.outcome.value.None? && !r.borg.running
  {
    match PruneOptions(repo, keep, prefix, verbose)
    case Err(e) => RunResult(b, None, [], None, Err(e))
    case Ok(options) =>
      Run(b, binary, "prune", options, Inherit, true, None, proc, errorIds, PruneLoop(promptIds))
  }
}
