/**
  The structured messages borg writes to stderr with `--log-json`, and the two
  places the adapter inspects them: `Borg.parse_json`, which escalates
  designated log messages to `BorgError`, and the loops of `create`, `list`
  and `prune`, which refuse messages that ask for an interactive answer.

  Events are modelled as already-decoded records; JSON decoding itself is not
  part of this model. The sets of error and prompt message ids are parameters:
  the module that defines them is not part of this model.
 */
module Events {
  import opened Errors

  /** A decoded message: its `type`, its optional `msgid`, and all other fields. */
  datatype Event = Event(kind: string, msgid: Option<string>, payload: map<string, string>)

  const LogMessage := "log_message"
  const ProgressMessage := "progress_message"

  /** `hasattr(msg, 'msgid') and msg.msgid`. */
  predicate HasMsgId(ev: Event) {
    Truthy(ev.msgid)
  }

  /** A log message whose id is one of borg's error ids. */
  predicate IsFatal(ev: Event, errorIds: set<string>) {
    ev.kind == LogMessage && HasMsgId(ev) && ev.msgid.value in errorIds
  }

  /**
    `Borg.parse_json` with two corrections. It uses the dictionary lookups
    the code evidently means (see `ParseJsonAsWritten`). It also raises the
    `BorgError` without the call `_log(e)`, which invokes a `Logger` object
    and would raise `TypeError` first (see `ParseJsonLogAsWritten`). A fatal
    log message becomes a `BorgError` carrying its id and fields, and every
    other event is returned unchanged.
   */
  function ParseJson(ev: Event, errorIds: set<string>): (r: Result<Event>)
    ensures r.Err? <==> IsFatal(ev, errorIds)
    ensures r.Err? ==> r.error.BorgError? && Some(r.error.msgid) == ev.msgid && r.error.payload == ev.payload
    ensures r.Ok? ==> r.value == ev
  {
    if ev.kind == LogMessage && HasMsgId(ev) && ev.msgid.value in errorIds then
      Err(BorgError(ev.msgid.value, ev.payload))
    else
      Ok(ev)
  }

  /**
    `Borg.parse_json` as written: `json.loads` returns a dict, and `msg.type`
    is attribute access on it, which raises `AttributeError` for every line.
   */
  function ParseJsonAsWritten(ev: Event, errorIds: set<string>): (r: Result<Event>)
    ensures r.Err? && r.error == AttributeError("type")
  {
    Err(AttributeError("type"))
  }

  /** A plain progress message passes the corrected parser but not the code as written. */
  lemma ParseJsonAsWrittenRejectsEveryEvent()
    ensures var ev := Event("progress_percent", None, map[]);
            && ParseJson(ev, {"Repository.DoesNotExist"}) == Ok(ev)
            && ParseJsonAsWritten(ev, {"Repository.DoesNotExist"}).Err?
  {
  }

  /**
    `Borg.parse_json` with the dictionary lookups corrected but the logging
    line as written. `_log` is `logging.getLogger('borg')`, and calling a
    `Logger` object raises `TypeError`. So a fatal message raises that
    instead of the `BorgError`; other events pass unchanged.
   */
  function ParseJsonLogAsWritten(ev: Event, errorIds: set<string>): (r: Result<Event>)
    ensures r.Err? <==> IsFatal(ev, errorIds)
    ensures r.Err? ==> r.error == TypeError
    ensures r.Ok? ==> r.value == ev
  {
    if IsFatal(ev, errorIds) then Err(TypeError) else Ok(ev)
  }

  /** A fatal message: the corrected parser raises `BorgError`, the logging line as written a `TypeError`. */
  lemma ParseJsonLogAsWrittenMasksBorgError()
    ensures var ev := Event(LogMessage, Some("Repository.DoesNotExist"), map[]);
            && ParseJson(ev, {"Repository.DoesNotExist"}) == Err(BorgError("Repository.DoesNotExist", map[]))
            && ParseJsonLogAsWritten(ev, {"Repository.DoesNotExist"}) == Err(TypeError)
  {
  }

  /**
    What the caller of `_run` does with each yielded event. `Collect` is a
    caller that takes every event; `CommandLoop` is the loop of `create`,
    `list` and `prune`, which raises `RuntimeError` on a prompt and, in
    `create` only, `NotImplementedError` on a progress message. The loops
    are read with dictionary lookups (`msg['type']`, `msg.get('msgid')`),
    as `Consume` does; see `ConsumeAsWritten` for the code as written.
   */
  datatype Consumer =
    | Collect
    | CommandLoop(promptIds: set<string>, progressUnsupported: bool)

  /**
    The type names `create` compares against, as written: the second is
    misspelt, so `progress_percent` events pass silently.
   */
  const CreateProgressKinds: seq<string> := [ProgressMessage, "pogress_percent"]

  /** The exception the consumer raises on `ev`, if any. */
  function Consume(c: Consumer, ev: Event): (r: Option<Error>)
    ensures c.Collect? ==> r.None?
    ensures c.CommandLoop? && ev.kind == LogMessage ==>
              (r.Some? <==> HasMsgId(ev) && ev.msgid.value in c.promptIds)
    ensures r.Some? && ev.kind == LogMessage ==> r.value == RuntimeError("")
    ensures r.Some? && ev.kind != LogMessage ==>
              c.CommandLoop? && c.progressUnsupported && ev.kind in CreateProgressKinds
              && r.value == NotImplementedError
    ensures c.CommandLoop? && c.progressUnsupported && ev.kind == ProgressMessage ==> r.Some?
  {
    match c
    case Collect => None
    case CommandLoop(promptIds, progressUnsupported) =>
      if ev.kind == LogMessage then
        if HasMsgId(ev) && ev.msgid.value in promptIds then Some(RuntimeError("")) else None
      else if progressUnsupported && ev.kind in CreateProgressKinds then
        Some(NotImplementedError)
      else None
  }

  /**
    The command loops as written: they read `msg.type` on the dict that
    `parse_json` returns, so every event a loop receives raises
    `AttributeError`. (Were that fixed, `hasattr(msg, 'msgid')` on a dict
    would still always be false, and no prompt would ever be refused.)
   */
  function ConsumeAsWritten(c: Consumer, ev: Event): (r: Option<Error>)
    ensures r.Some? <==> c.CommandLoop?
    ensures r.Some? ==> r.value == AttributeError("type")
  {
    match c
    case Collect => None
    case CommandLoop(_, _) => Some(AttributeError("type"))
  }

  /** A prompt: the corrected loop refuses it with `RuntimeError`, the loop as written fails on `msg.type`. */
  lemma ConsumeAsWrittenMissesPrompt()
    ensures var ev := Event(LogMessage, Some("BORG_RELOCATED_REPO_ACCESS_IS_OK"), map[]);
            var c := CommandLoop({"BORG_RELOCATED_REPO_ACCESS_IS_OK"}, false);
            && Consume(c, ev) == Some(RuntimeError(""))
            && ConsumeAsWritten(c, ev) == Some(AttributeError("type"))
  {
  }

  /** How a message is handled overall: escalated, refused as a prompt, or informational. */
  datatype Disposition = Fatal | Prompt | Info

  /** The classification of a log message by its id: error ids first, then prompt ids. */
  function Classify(ev: Event, errorIds: set<string>, promptIds: set<string>): Disposition {
    if ev.kind != LogMessage || !HasMsgId(ev) then Info
    else if ev.msgid.value in errorIds then Fatal
    else if ev.msgid.value in promptIds then Prompt
    else Info
  }

  /**
    Parsing followed by a command loop realises the classification of log
    messages: fatal ids raise `BorgError`, prompt ids raise `RuntimeError`,
    and every other log message (including one without an id) passes.
   */
  lemma LogMessageDisposition(ev: Event, errorIds: set<string>, promptIds: set<string>, progressUnsupported: bool)
    requires ev.kind == LogMessage
    ensures var c := CommandLoop(promptIds, progressUnsupported);
            && (ParseJson(ev, errorIds).Err? <==> Classify(ev, errorIds, promptIds) == Fatal)
            && (ParseJson(ev, errorIds).Ok? && Consume(c, ev).Some? <==> Classify(ev, errorIds, promptIds) == Prompt)
            && (ParseJson(ev, errorIds).Ok? && Consume(c, ev).None? <==> Classify(ev, errorIds, promptIds) == Info)
  {
  }
}
