/**
 * `elastic_component_template`: makes a component template match the body in
 * the `src` file (`state: present`) or removes it (`state: absent`).
 *
 * The same decision table as `elastic_index_template`, written separately in
 * the source with three differences: the difference check returns a real
 * boolean, no `diff` is ever reported, and a check-mode create reads no file.
 */
module ComponentTemplate {
  import opened Wrappers
  import opened JsonDoc
  import opened Client
  import opened Reconciliation
  import IndexTemplate

  /** `component_template_is_different`: the sorted-key serialisations differ. */
  function IsDifferent(currentCt: Json, body: Json): (r: bool)
    ensures currentCt == body ==> !r
  {
    var str1 := Canon(currentCt);
    var str2 := Canon(body);
    str1 != str2
  }

  /** "Different" means the two documents hold different content. */
  lemma IsDifferentIffContentDiffers(currentCt: Json, body: Json)
    requires WellFormed(currentCt) && WellFormed(body)
    ensures IsDifferent(currentCt, body) <==> Content(currentCt) != Content(body)
    ensures IsDifferent(currentCt, body) <==> !SameUpToKeyOrder(currentCt, body)
  {
    SameCanonIffSameContent(currentCt, body);
    SameCanonIffSameUpToKeyOrder(currentCt, body);
  }

  /** The check is symmetric and irreflexive, and agrees with the index-template copy. */
  lemma IsDifferentSymmetric(a: Json, b: Json)
    ensures IsDifferent(a, b) == IsDifferent(b, a)
    ensures !IsDifferent(a, a)
    ensures IsDifferent(a, b) <==> IndexTemplate.IsDifferent(a, b) == Some(true)
  {
  }

  /** Bodies that differ only in the order of object keys, at any depth, are not different. */
  lemma KeyOrderNeverDifferent(currentCt: Json, body: Json)
    requires SameUpToKeyOrder(currentCt, body)
    ensures !IsDifferent(currentCt, body)
  {
    KeyOrderNeverCounts(currentCt, body);
  }

  /**
   * The create and update branches: put unless in check mode, then report a
   * change with the put's reply. The file is read only by the put.
   */
  function PutAndReport(name: string, checkMode: bool, src: Option<Json>, fault: Fault, reply: Json,
                        msg: Message): (d: Decision)
    ensures checkMode ==> d == Decision(None, Exit(true, msg, None, None))
    ensures d.call.Some? ==> src.Some? && d.call.value == PutTemplate(name, src.value)
  {
    if checkMode then Decision(None, Exit(true, msg, None, None))
    else
      var p := PutFromFile(name, src, fault, reply);
      if p.reply.Err? then Decision(p.call, Fail(p.reply.error))
      else Decision(p.call, Exit(true, msg, None, Some(p.reply.value)))
  }

  /**
   * The branches of `main` once the current template is known (`None` when
   * it does not exist).
   */
  function Decide(before: Option<Json>, name: string, state: Lifecycle, checkMode: bool,
                  src: Option<Json>, fault: Fault, reply: Json): (d: Decision)
    ensures checkMode ==> d.call.None?
    ensures d.call.Some? ==> d.call == IntendedCall(before, state, name, src)
    ensures d.outcome.Exit? && !checkMode ==> (d.call.Some? <==> d.outcome.changed)
    ensures d.outcome.Exit? && checkMode ==> d.outcome.response.None?
    ensures d.outcome.Exit? && !checkMode && d.outcome.changed && state == Present ==> d.outcome.response == Some(reply)
    ensures d.outcome.Exit? ==> d.outcome.diff.None?
    ensures before.None? && state == Absent ==> d == Decision(None, Exit(false, DoesNotExist, None, None))
    ensures d.outcome.Exit? ==> d.outcome.msg == TemplateMessage(before.Some?, state, d.outcome.changed)
  {
    if before.None? then
      if state == Present then PutAndReport(name, checkMode, src, fault, reply, Created)
      else Decision(None, Exit(false, DoesNotExist, None, None))
    else if state == Present then
      if src.None? then Decision(None, Fail(LoadError))
      else if IsDifferent(before.value, src.value) then PutAndReport(name, checkMode, src, fault, reply, Updated)
      else Decision(None, Exit(false, AlreadyConfigured, None, None))
    else if checkMode then Decision(None, Exit(true, Deleted, None, None))
    else if fault == MutationFails then Decision(Some(DeleteTemplate(name)), Fail(BackendError))
    else Decision(Some(DeleteTemplate(name)), Exit(true, Deleted, None, None))
  }

  /**
   * The decision table of `main` as a function of what the get returned, as
   * for index templates.
   */
  function Run(fetched: Fetch, name: string, state: Lifecycle, checkMode: bool,
               src: Option<Json>, fault: Fault, reply: Json): (d: Decision)
    ensures checkMode ==> d.call.None?
    ensures fetched.FetchFailed? ==> d.outcome == Fail(BackendError)
  {
    match fetched
    case FetchFailed => Decision(None, Fail(BackendError))
    case NotFound => Decide(None, name, state, checkMode, src, fault, reply)
    case Found(doc) =>
      match ExtractTemplate(ComponentTemplates, doc)
      case None => Decision(None, Fail(BackendError))
      case Some(t) => Decide(if t == Null then None else Some(t), name, state, checkMode, src, fault, reply)
  }

  // ---------------------------------------------------------------------------
  // Properties of the decision table
  // ---------------------------------------------------------------------------

  /** Against a cluster, the run decides on the stored body, fetched once. */
  lemma RunOnStore(templates: map<string, Json>, name: string, state: Lifecycle, checkMode: bool,
                   src: Option<Json>, fault: Fault, reply: Json)
    ensures Run(FetchTemplate(ComponentTemplates, templates, name, false), name, state, checkMode, src, fault, reply)
         == Decide(Stored(templates, name), name, state, checkMode, src, fault, reply)
  {
    if name in templates {
      ExtractGetResponse(ComponentTemplates, name, templates[name]);
    }
  }

  /**
   * When a run ends normally, `changed` is true exactly when the template had
   * to be created, updated or deleted, in check mode as well.
   */
  lemma ChangedIffChangeNeeded(before: Option<Json>, name: string, state: Lifecycle, checkMode: bool,
                               src: Option<Json>, fault: Fault, reply: Json)
    requires before.Some? ==> WellFormed(before.value)
    requires src.Some? ==> WellFormed(src.value)
    ensures var d := Decide(before, name, state, checkMode, src, fault, reply);
      d.outcome.Exit? ==> d.outcome.changed == ChangeNeeded(before, state, src)
  {
    if before.Some? && src.Some? {
      IsDifferentIffContentDiffers(before.value, src.value);
    }
  }

  /** The `src` file is read only to compare or to put: never on `absent`, never by a check-mode create. */
  lemma SrcReadOnlyToCompareOrPut(before: Option<Json>, name: string, state: Lifecycle, checkMode: bool,
                                  src1: Option<Json>, src2: Option<Json>, fault: Fault, reply: Json)
    requires state == Absent || (before.None? && checkMode)
    ensures Decide(before, name, state, checkMode, src1, fault, reply)
         == Decide(before, name, state, checkMode, src2, fault, reply)
  {
  }

  /**
   * The only ways a run fails: the request fails, the file cannot be read,
   * or the put's reply is not a mapping, in which case the put was made.
   */
  lemma FailureCauses(before: Option<Json>, name: string, state: Lifecycle, checkMode: bool,
                      src: Option<Json>, fault: Fault, reply: Json)
    ensures var d := Decide(before, name, state, checkMode, src, fault, reply);
      && (d.outcome == Fail(LoadError) ==> src.None? && d.call.None?)
      && (d.outcome == Fail(BackendError) ==> fault == MutationFails && d.call.Some?)
      && (d.outcome == Fail(InvalidResponse) ==> !reply.Obj? && d.call == Some(PutTemplate(name, src.value)))
      && (fault == NoFault && src.Some? && reply.Obj? ==> d.outcome.Exit?)
  {
  }

  /**
   * The two copies of the decision table agree whenever no diff is
   * requested: they differ only in the `diff` they report.
   */
  lemma AgreesWithIndexTemplate(before: Option<Json>, name: string, state: Lifecycle, checkMode: bool,
                                src: Option<Json>, fault: Fault, reply: Json)
    ensures Decide(before, name, state, checkMode, src, fault, reply)
         == IndexTemplate.Decide(before, name, state, checkMode, false, src, fault, reply)
  {
  }

  /**
   * Idempotence: once a run has put the body, a second run with the same file
   * finds it already configured.
   */
  lemma SecondRunIsNoOp(templates: map<string, Json>, name: string, body: Json, reply: Json, checkMode2: bool)
    requires body != Null && reply.Obj?
    ensures var first := Run(FetchTemplate(ComponentTemplates, templates, name, false), name, Present, false,
                             Some(body), NoFault, reply);
      var after := TemplatesAfter(templates, first.call, NoFault);
      && first.outcome.Exit?
      && Run(FetchTemplate(ComponentTemplates, after, name, false), name, Present, checkMode2,
             Some(body), NoFault, reply).outcome == Exit(false, AlreadyConfigured, None, None)
  {
    var first := Run(FetchTemplate(ComponentTemplates, templates, name, false), name, Present, false,
                     Some(body), NoFault, reply);
    var after := TemplatesAfter(templates, first.call, NoFault);
    RunOnStore(templates, name, Present, false, Some(body), NoFault, reply);
    RunOnStore(after, name, Present, checkMode2, Some(body), NoFault, reply);
    if first.call.Some? {
      assert Stored(after, name) == Some(body);
    } else {
      assert after == templates;
    }
  }

  // ---------------------------------------------------------------------------
  // `main`, step by step against the cluster
  // ---------------------------------------------------------------------------

  /** `put_component_template`: read the file, put its body, insist on a mapping reply. */
  method PutComponentTemplate(store: TemplateStore, name: string, src: Option<Json>, fault: Fault)
    returns (r: Result<Json, Error>)
    modifies store
    ensures var p := PutFromFile(name, src, fault, store.reply);
      && r == p.reply
      && store.templates == TemplatesAfter(old(store.templates), p.call, fault)
      && store.calls == old(store.calls) + CallLog(p.call)
  {
    if src.None? {
      return Err(LoadError);
    }
    var answer := store.Put(name, src.value, fault == MutationFails);
    if answer.None? {
      return Err(BackendError);
    }
    if !answer.value.Obj? {
      return Err(InvalidResponse);
    }
    return Ok(answer.value);
  }

  /** `main` from the get on: one get, then at most one put or delete. */
  method Reconcile(store: TemplateStore, name: string, state: Lifecycle, checkMode: bool,
                   src: Option<Json>, fault: Fault)
    returns (outcome: Outcome)
    requires store.kind == ComponentTemplates
    modifies store
    ensures var d := Run(FetchTemplate(ComponentTemplates, old(store.templates), name, fault == ReadFails),
                         name, state, checkMode, src, fault, store.reply);
      && outcome == d.outcome
      && store.templates == TemplatesAfter(old(store.templates), d.call, fault)
      && store.calls == old(store.calls) + CallLog(d.call)
    ensures |store.calls| <= |old(store.calls)| + 1
    ensures checkMode ==> store.templates == old(store.templates) && store.calls == old(store.calls)
  {
    var fetched := store.Get(name, fault == ReadFails);
    if fetched.FetchFailed? {
      return Fail(BackendError);
    }
    var before: Option<Json> := None;
    if fetched.Found? {
      var extracted := ExtractTemplate(ComponentTemplates, fetched.doc);
      if extracted.None? {
        return Fail(BackendError);
      }
      if extracted.value != Null {
        before := extracted;
      }
    }
    var response: Option<Json> := None;
    if before.None? {
      if state == Present {
        if !checkMode {
          var r := PutComponentTemplate(store, name, src, fault);
          if r.Err? {
            return Fail(r.error);
          }
          response := Some(r.value);
        }
        return Exit(true, Created, None, response);
      } else {
        return Exit(false, DoesNotExist, None, None);
      }
    } else {
      if state == Present {
        if src.None? {
          return Fail(LoadError);
        }
        if IsDifferent(before.value, src.value) {
          if !checkMode {
            var r := PutComponentTemplate(store, name, src, fault);
            if r.Err? {
              return Fail(r.error);
            }
            response := Some(r.value);
          }
          return Exit(true, Updated, None, response);
        } else {
          return Exit(false, AlreadyConfigured, None, None);
        }
      } else {
        if !checkMode {
          var answer := store.Delete(name, fault == MutationFails);
          if answer.None? {
            return Fail(BackendError);
          }
          return Exit(true, Deleted, None, None);
        } else {
          return Exit(true, Deleted, None, None);
        }
      }
    }
  }
}
