/**
 * `elastic_index_template`: makes a composable index template match the body
 * in the `src` file (`state: present`) or removes it (`state: absent`).
 *
 * `Run` is the decision table of `main`, as a function of what the single get
 * returned; `Reconcile` is `main` itself, step by step against a
 * `TemplateStore`, and is proved to do what `Run` says.
 */
module IndexTemplate {
  import opened Wrappers
  import opened JsonDoc
  import opened Client
  import opened Reconciliation

  /**
   * `index_template_is_different`: Python `True` when the sorted-key
   * serialisations of the file body and of the stored template differ, and
   * otherwise the implicit `None`. Its `dict1 is not None` guard always holds,
   * since a serialisation is never None, so it never returns `False`.
   */
  function IsDifferent(indexTemplate: Json, body: Json): (r: Option<bool>)
    ensures r != Some(false)
    ensures indexTemplate == body ==> r.None?
  {
    var dict1 := Canon(body);
    var dict2 := Canon(indexTemplate);
    if dict1 != dict2 then Some(true) else None
  }

  /** "Different" means the two documents hold different content. */
  lemma IsDifferentIffContentDiffers(indexTemplate: Json, body: Json)
    requires WellFormed(indexTemplate) && WellFormed(body)
    ensures IsDifferent(indexTemplate, body) == Some(true) <==> Content(indexTemplate) != Content(body)
    ensures IsDifferent(indexTemplate, body) == Some(true) <==> !SameUpToKeyOrder(indexTemplate, body)
  {
    SameCanonIffSameContent(indexTemplate, body);
    SameCanonIffSameUpToKeyOrder(indexTemplate, body);
  }

  /** Bodies that differ only in the order of object keys, at any depth, are not different. */
  lemma KeyOrderNeverDifferent(indexTemplate: Json, body: Json)
    requires SameUpToKeyOrder(indexTemplate, body)
    ensures IsDifferent(indexTemplate, body).None?
  {
    KeyOrderNeverCounts(indexTemplate, body);
  }

  /**
   * The create and update branches: put unless in check mode, then report a
   * change with the put's reply and, when a diff is requested, the body read
   * from `src` once more.
   */
  function PutAndReport(before: Option<Json>, name: string, checkMode: bool, diffMode: bool,
                        src: Option<Json>, fault: Fault, reply: Json, msg: Message): (d: Decision)
    ensures checkMode ==> d.call.None?
    ensures d.call.Some? ==> src.Some? && d.call.value == PutTemplate(name, src.value)
  {
    var p := PutFromFile(name, src, fault, reply);
    if !checkMode && p.reply.Err? then Decision(p.call, Fail(p.reply.error))
    else
      var call := if checkMode then None else p.call;
      var response := if checkMode then None else Some(p.reply.value);
      if diffMode && src.None? then Decision(call, Fail(LoadError))
      else Decision(call, Exit(true, msg, if diffMode then Some(Diff(before, src.value)) else None, response))
  }

  /**
   * The branches of `main` once the current template is known (`None` when
   * it does not exist).
   */
  function Decide(before: Option<Json>, name: string, state: Lifecycle, checkMode: bool, diffMode: bool,
                  src: Option<Json>, fault: Fault, reply: Json): (d: Decision)
    ensures checkMode ==> d.call.None?
    ensures d.call.Some? ==> d.call == IntendedCall(before, state, name, src)
    ensures d.outcome.Exit? && !checkMode ==> (d.call.Some? <==> d.outcome.changed)
    ensures d.outcome.Exit? && checkMode ==> d.outcome.response.None?
    ensures d.outcome.Exit? && !checkMode && d.outcome.changed && state == Present ==> d.outcome.response == Some(reply)
    ensures d.outcome.Exit? && d.outcome.changed && state == Present ==>
              if diffMode then src.Some? && d.outcome.diff == Some(Diff(before, src.value)) else d.outcome.diff.None?
    ensures d.outcome.Exit? && !(d.outcome.changed && state == Present) ==> d.outcome.diff.None?
    ensures before.None? && state == Absent ==> d == Decision(None, Exit(false, DoesNotExist, None, None))
    ensures d.outcome.Exit? ==> d.outcome.msg == TemplateMessage(before.Some?, state, d.outcome.changed)
  {
    if before.None? then
      if state == Present then PutAndReport(None, name, checkMode, diffMode, src, fault, reply, Created)
      else Decision(None, Exit(false, DoesNotExist, None, None))
    else if state == Present then
      if src.None? then Decision(None, Fail(LoadError))
      else if IsDifferent(before.value, src.value) == Some(true) then
        PutAndReport(before, name, checkMode, diffMode, src, fault, reply, Updated)
      else Decision(None, Exit(false, AlreadyConfigured, None, None))
    else if checkMode then Decision(None, Exit(true, Deleted, None, None))
    else if fault == MutationFails then Decision(Some(DeleteTemplate(name)), Fail(BackendError))
    else Decision(Some(DeleteTemplate(name)), Exit(true, Deleted, None, None))
  }

  /**
   * The decision table of `main` as a function of what the get returned: a
   * `NotFoundError` means the template does not exist, any other failure of
   * the get or of the subscripts into its response is fatal, and a body that
   * is JSON null counts as missing (`before is None`).
   */
  function Run(fetched: Fetch, name: string, state: Lifecycle, checkMode: bool, diffMode: bool,
               src: Option<Json>, fault: Fault, reply: Json): (d: Decision)
    ensures checkMode ==> d.call.None?
    ensures fetched.FetchFailed? ==> d.outcome == Fail(BackendError)
  {
    match fetched
    case FetchFailed => Decision(None, Fail(BackendError))
    case NotFound => Decide(None, name, state, checkMode, diffMode, src, fault, reply)
    case Found(doc) =>
      match ExtractTemplate(IndexTemplates, doc)
      case None => Decision(None, Fail(BackendError))
      case Some(t) => Decide(if t == Null then None else Some(t), name, state, checkMode, diffMode, src, fault, reply)
  }

  // ---------------------------------------------------------------------------
  // Properties of the decision table
  // ---------------------------------------------------------------------------

  /** Against a cluster, the run decides on the stored body, fetched once. */
  lemma RunOnStore(templates: map<string, Json>, name: string, state: Lifecycle, checkMode: bool, diffMode: bool,
                   src: Option<Json>, fault: Fault, reply: Json)
    ensures Run(FetchTemplate(IndexTemplates, templates, name, false), name, state, checkMode, diffMode, src, fault, reply)
         == Decide(Stored(templates, name), name, state, checkMode, diffMode, src, fault, reply)
  {
    if name in templates {
      ExtractGetResponse(IndexTemplates, name, templates[name]);
    }
  }

  /**
   * When a run ends normally, `changed` is true exactly when the template had
   * to be created, updated or deleted, in check mode as well.
   */
  lemma ChangedIffChangeNeeded(before: Option<Json>, name: string, state: Lifecycle, checkMode: bool, diffMode: bool,
                               src: Option<Json>, fault: Fault, reply: Json)
    requires before.Some? ==> WellFormed(before.value)
    requires src.Some? ==> WellFormed(src.value)
    ensures var d := Decide(before, name, state, checkMode, diffMode, src, fault, reply);
      d.outcome.Exit? ==> d.outcome.changed == ChangeNeeded(before, state, src)
  {
    if before.Some? && src.Some? {
      IsDifferentIffContentDiffers(before.value, src.value);
    }
  }

  /** The `src` file is never read on an `absent` run. */
  lemma AbsentNeverReadsSrc(before: Option<Json>, name: string, checkMode: bool, diffMode: bool,
                            src1: Option<Json>, src2: Option<Json>, fault: Fault, reply: Json)
    ensures Decide(before, name, Absent, checkMode, diffMode, src1, fault, reply)
         == Decide(before, name, Absent, checkMode, diffMode, src2, fault, reply)
  {
  }

  /** A check-mode create without a diff request reads no file. */
  lemma CheckModeCreateWithoutDiffNeverReadsSrc(name: string, src1: Option<Json>, src2: Option<Json>,
                                                fault: Fault, reply: Json)
    ensures Decide(None, name, Present, true, false, src1, fault, reply)
         == Decide(None, name, Present, true, false, src2, fault, reply)
    ensures Decide(None, name, Present, true, false, src1, fault, reply).outcome
         == Exit(true, Created, None, None)
  {
  }

  /**
   * The only ways a run fails: the get or the request fails, the file cannot
   * be read, or the put's reply is not a mapping, in which case the put was
   * made.
   */
  lemma FailureCauses(before: Option<Json>, name: string, state: Lifecycle, checkMode: bool, diffMode: bool,
                      src: Option<Json>, fault: Fault, reply: Json)
    ensures var d := Decide(before, name, state, checkMode, diffMode, src, fault, reply);
      && (d.outcome == Fail(LoadError) ==> src.None? && d.call.None?)
      && (d.outcome == Fail(BackendError) ==> fault == MutationFails && d.call.Some?)
      && (d.outcome == Fail(InvalidResponse) ==> !reply.Obj? && d.call == Some(PutTemplate(name, src.value)))
      && (fault == NoFault && src.Some? && reply.Obj? ==> d.outcome.Exit?)
  {
  }

  /**
   * Idempotence: once a run has put the body, a second run with the same file
   * finds it already configured.
   */
  lemma SecondRunIsNoOp(templates: map<string, Json>, name: string, body: Json, diffMode: bool, reply: Json,
                        checkMode2: bool, diffMode2: bool)
    requires body != Null && reply.Obj?
    ensures var first := Run(FetchTemplate(IndexTemplates, templates, name, false), name, Present, false, diffMode,
                             Some(body), NoFault, reply);
      var after := TemplatesAfter(templates, first.call, NoFault);
      && first.outcome.Exit?
      && Run(FetchTemplate(IndexTemplates, after, name, false), name, Present, checkMode2, diffMode2,
             Some(body), NoFault, reply).outcome == Exit(false, AlreadyConfigured, None, None)
  {
    var first := Run(FetchTemplate(IndexTemplates, templates, name, false), name, Present, false, diffMode,
                     Some(body), NoFault, reply);
    var after := TemplatesAfter(templates, first.call, NoFault);
    RunOnStore(templates, name, Present, false, diffMode, Some(body), NoFault, reply);
    RunOnStore(after, name, Present, checkMode2, diffMode2, Some(body), NoFault, reply);
    if first.call.Some? {
      assert Stored(after, name) == Some(body);
    } else {
      assert after == templates;
    }
  }

  // ---------------------------------------------------------------------------
  // `main`, step by step against the cluster
  // ---------------------------------------------------------------------------

  /** `put_index_template`: read the file, put its body, insist on a mapping reply. */
  method PutIndexTemplate(store: TemplateStore, name: string, src: Option<Json>, fault: Fault)
    returns (r: Result<Json, Error>)
    modifies store
    ensures var p := PutFromFile(name, src, fault, store.reply);
      && r == p.reply
      && store.templates == TemplatesAfter(old(store.templates), p.call, fault)
      && store.calls == old(store.calls) + CallLog(p.call)
  {
    if src.None? {
      return Err(LoadError);
    }
    var answer := store.Put(name, src.value, fault == MutationFails);
    if answer.None? {
      return Err(BackendError);
    }
    if !answer.value.Obj? {
      return Err(InvalidResponse);
    }
    return Ok(answer.value);
  }

  /** `main` from the get on: one get, then at most one put or delete. */
  method Reconcile(store: TemplateStore, name: string, state: Lifecycle, checkMode: bool, diffMode: bool,
                   src: Option<Json>, fault: Fault)
    returns (outcome: Outcome)
    requires store.kind == IndexTemplates
    modifies store
    ensures var d := Run(FetchTemplate(IndexTemplates, old(store.templates), name, fault == ReadFails),
                         name, state, checkMode, diffMode, src, fault, store.reply);
      && outcome == d.outcome
      && store.templates == TemplatesAfter(old(store.templates), d.call, fault)
      && store.calls == old(store.calls) + CallLog(d.call)
    ensures |store.calls| <= |old(store.calls)| + 1
    ensures checkMode ==> store.templates == old(store.templates) && store.calls == old(store.calls)
  {
    var fetched := store.Get(name, fault == ReadFails);
    if fetched.FetchFailed? {
      return Fail(BackendError);
    }
    var before: Option<Json> := None;
    if fetched.Found? {
      var extracted := ExtractTemplate(IndexTemplates, fetched.doc);
      if extracted.None? {
        return Fail(BackendError);
      }
      if extracted.value != Null {
        before := extracted;
      }
    }
    var response: Option<Json> := None;
    if before.None? {
      if state == Present {
        if !checkMode {
          var r := PutIndexTemplate(store, name, src, fault);
          if r.Err? {
            return Fail(r.error);
          }
          response := Some(r.value);
        }
        var diff: Option<Diff> := None;
        if diffMode {
          if src.None? {
            return Fail(LoadError);
          }
          diff := Some(Diff(None, src.value));
        }
        return Exit(true, Created, diff, response);
      } else {
        return Exit(false, DoesNotExist, None, None);
      }
    } else {
      if state == Present {
        if src.None? {
          return Fail(LoadError);
        }
        if IsDifferent(before.value, src.value) == Some(true) {
          if !checkMode {
            var r := PutIndexTemplate(store, name, src, fault);
            if r.Err? {
              return Fail(r.error);
            }
            response := Some(r.value);
          }
          var diff: Option<Diff> := if diffMode then Some(Diff(before, src.value)) else None;
          return Exit(true, Updated, diff, response);
        } else {
          return Exit(false, AlreadyConfigured, None, None);
        }
      } else {
        if !checkMode {
          var answer := store.Delete(name, fault == MutationFails);
          if answer.None? {
            return Fail(BackendError);
          }
          return Exit(true, Deleted, None, None);
        } else {
          return Exit(true, Deleted, None, None);
        }
      }
    }
  }
}
