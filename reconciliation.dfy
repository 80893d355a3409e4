/**
 * What a run of one of the modules produces, and the pieces the template
 * reconcilers share: the put issued with the body read from `src`, and the
 * transition a run is meant to make (create, update, delete or nothing).
 *
 * A run ends either in `exit_json` (an `Exit` outcome: `changed`, the kind of
 * message, the optional `diff` and the response reported with it) or in
 * `fail_json` (a `Fail` outcome). Message texts are reduced to their kind.
 */
module Reconciliation {
  import opened Wrappers
  import opened JsonDoc
  import opened Client

  /** The requested `state` of a template. */
  datatype Lifecycle = Present | Absent

  /** Why a run failed: the `src` file could not be read, the cluster raised, or a put reply was not a mapping. */
  datatype Error = LoadError | BackendError | InvalidResponse

  datatype Message =
    | Created
    | Updated
    | AlreadyConfigured
    | DoesNotExist
    | Deleted
    | DanglingImported
    | NotFoundProbablyImported
    | DanglingDeleted
    | NotFoundProbablyDeleted

  /** The `diff` reported to the host: `before` is absent on a create. */
  datatype Diff = Diff(before: Option<Json>, after: Json)

  datatype Outcome =
    | Exit(changed: bool, msg: Message, diff: Option<Diff>, response: Option<Json>)
    | Fail(error: Error)

  /** What one run does: the mutating request it issues, if any, and how it ends. */
  datatype Decision = Decision(call: Option<Call>, outcome: Outcome)

  function CallLog(call: Option<Call>): (log: seq<Call>)
    ensures |log| <= 1
    ensures call.None? <==> log == []
    ensures call.Some? ==> log == [call.value]
  {
    if call.Some? then [call.value] else []
  }

  /** The templates after a run's request: a refused request changes nothing. */
  function TemplatesAfter(templates: map<string, Json>, call: Option<Call>, fault: Fault): map<string, Json>
  {
    if call.Some? && fault != MutationFails then ApplyToTemplates(templates, call.value) else templates
  }

  /** The outcome of `put_*_template`: the request made, if any, and the reply or the failure. */
  datatype PutResult = PutResult(call: Option<Call>, reply: Result<Json, Error>)

  /**
   * `put_index_template` and `put_component_template`: read the body from
   * `src` (failing before any request when it cannot be read), put it, and
   * accept only a reply that converts to a dict.
   */
  function PutFromFile(name: string, src: Option<Json>, fault: Fault, reply: Json): (p: PutResult)
    ensures p.call.Some? <==> src.Some?
    ensures p.call.Some? ==> p.call.value == PutTemplate(name, src.value)
    ensures p.reply.Ok? <==> src.Some? && fault != MutationFails && reply.Obj?
    ensures p.reply.Ok? ==> p.reply.value == reply
    ensures p.reply.Err? && src.None? ==> p.reply.error == LoadError
  {
    if src.None? then PutResult(None, Err(LoadError))
    else if fault == MutationFails then PutResult(Some(PutTemplate(name, src.value)), Err(BackendError))
    else if !reply.Obj? then PutResult(Some(PutTemplate(name, src.value)), Err(InvalidResponse))
    else PutResult(Some(PutTemplate(name, src.value)), Ok(reply))
  }

  /**
   * Whether the current template has to change to reach `state`: create a
   * missing one, delete an existing one, or update one whose content differs
   * from the desired body. Content, not text: key order does not count.
   */
  ghost predicate ChangeNeeded(current: Option<Json>, state: Lifecycle, desired: Option<Json>)
  {
    match (current, state)
    case (None, Present) => true
    case (None, Absent) => false
    case (Some(_), Absent) => true
    case (Some(c), Present) => desired.Some? && Content(c) != Content(desired.value)
  }

  /** The request a run that is not in check mode makes for a needed change. */
  function IntendedCall(current: Option<Json>, state: Lifecycle, name: string, desired: Option<Json>): Option<Call>
  {
    if state == Absent then (if current.Some? then Some(DeleteTemplate(name)) else None)
    else if desired.Some? then Some(PutTemplate(name, desired.value))
    else None
  }

  /**
   * The kind of message a template run that exits reports: it depends on
   * whether the template existed, on `state` and, for an existing template
   * that should be present, on whether it had to be updated.
   */
  function TemplateMessage(found: bool, state: Lifecycle, changed: bool): Message
  {
    match (found, state)
    case (false, Present) => Created
    case (false, Absent) => DoesNotExist
    case (true, Absent) => Deleted
    case (true, Present) => if changed then Updated else AlreadyConfigured
  }

  /** The stored body as the reconcilers see it: a missing template, or one stored as JSON null, is `None`. */
  function Stored(templates: map<string, Json>, name: string): Option<Json>
  {
    if name in templates && templates[name] != Null then Some(templates[name]) else None
  }
}
