/**
 * `elastic_dangling_index`: imports a dangling index back into the cluster
 * (`state: imported`) or deletes it from the dangling indices
 * (`state: absent`), identified by its uuid, always accepting data loss.
 */
module DanglingIndex {
  import opened Wrappers
  import opened JsonDoc
  import opened Client
  import opened Reconciliation

  /** The requested `state`: `imported` or `absent`. */
  datatype DanglingState = ImportedState | AbsentState

  /** The response check mode reports in place of the cluster's answer. */
  const Ack: Json := Obj([Member("acknowledged", Bool(true))])

  /**
   * `i['index_uuid'] for i in items`: every item must be an object holding
   * `index_uuid`, whose values are collected in order.
   */
  function UuidsOfItems(items: seq<Json>): (r: Option<seq<Json>>)
    ensures r.Some? <==> forall i | 0 <= i < |items| :: Index(items[i], "index_uuid").Some?
    ensures r.Some? ==> |r.value| == |items| &&
                        forall i | 0 <= i < |items| :: r.value[i] == Index(items[i], "index_uuid").value
    decreases items
  {
    if items == [] then Some([])
    else
      var rest := UuidsOfItems(items[1..]);
      match Index(items[0], "index_uuid")
      case None => None
      case Some(u) =>
        if rest.None? then None else Some([u] + rest.value)
  }

  /**
   * The uuids of the current dangling indices, as the list comprehension
   * computes them from the listing; `None` when it raises. Iterating an
   * empty string or an empty mapping yields nothing; any other non-list
   * value, or a list item without `index_uuid`, raises.
   */
  function CurrentDangling(listing: Json): (r: Option<seq<Json>>)
    ensures r.Some? ==> Index(listing, "dangling_indices").Some?
    ensures r.Some? && r.value != [] ==> Index(listing, "dangling_indices").value.Arr?
    ensures Index(listing, "dangling_indices").Some? && Index(listing, "dangling_indices").value.Arr? ==>
              r == UuidsOfItems(Index(listing, "dangling_indices").value.items)
  {
    match Index(listing, "dangling_indices")
    case None => None
    case Some(field) =>
      match field
      case Arr(items) => UuidsOfItems(items)
      case Obj(ms) => if ms == [] then Some([]) else None
      case Str(s) => if s == "" then Some([]) else None
      case _ => None
  }

  /** The request issued for a listed uuid: data loss is always accepted. */
  function DanglingCall(uuid: string, state: DanglingState): (c: Call)
    ensures c.ImportDangling? || c.DeleteDangling?
    ensures c.uuid == uuid && c.acceptDataLoss
    ensures c.ImportDangling? <==> state == ImportedState
  {
    if state == ImportedState then ImportDangling(uuid, true) else DeleteDangling(uuid, true)
  }

  /**
   * `exit_json(changed=True, msg=..., **response)` raises unless the
   * response is a mapping without `changed` or `msg` keys.
   */
  predicate SpreadsIntoResult(response: Json)
  {
    response.Obj? && "changed" !in Keys(response.members) && "msg" !in Keys(response.members)
  }

  /** Report a change together with the response, or fail if it cannot be spread. */
  function Report(call: Option<Call>, response: Json, msg: Message): (d: Decision)
    ensures d.call == call
    ensures d.outcome.Exit? <==> SpreadsIntoResult(response)
    ensures d.outcome.Exit? ==> d.outcome == Exit(true, msg, None, Some(response))
    ensures d.outcome.Fail? ==> d.outcome.error == InvalidResponse
  {
    if SpreadsIntoResult(response) then Decision(call, Exit(true, msg, None, Some(response)))
    else Decision(call, Fail(InvalidResponse))
  }

  /** The branches of `main` once it is known whether `uuid` is listed. */
  function Decide(listed: bool, uuid: string, state: DanglingState, checkMode: bool, fault: Fault, reply: Json): (d: Decision)
    ensures checkMode ==> d.call.None?
    ensures d.call.Some? ==> d.call.value == DanglingCall(uuid, state)
    ensures d.call.Some? <==> listed && !checkMode
    ensures d.outcome.Exit? ==> d.outcome.changed == listed && d.outcome.diff.None?
    ensures !listed ==> d.outcome == Exit(false, if state == ImportedState then NotFoundProbablyImported else NotFoundProbablyDeleted, None, None)
    ensures listed && checkMode ==> d.outcome == Exit(true, if state == ImportedState then DanglingImported else DanglingDeleted, None, Some(Ack))
    ensures d.outcome.Fail? ==> d.call.Some? && (d.outcome.error == BackendError <==> fault == MutationFails)
    ensures listed && !checkMode && fault != MutationFails ==> d.outcome.Exit? == SpreadsIntoResult(reply)
    ensures listed && !checkMode && d.outcome.Exit? ==>
              d.outcome == Exit(true, if state == ImportedState then DanglingImported else DanglingDeleted, None, Some(reply))
  {
    var done := if state == ImportedState then DanglingImported else DanglingDeleted;
    if !listed then
      Decision(None, Exit(false, if state == ImportedState then NotFoundProbablyImported else NotFoundProbablyDeleted, None, None))
    else if checkMode then Report(None, Ack, done)
    else if fault == MutationFails then Decision(Some(DanglingCall(uuid, state)), Fail(BackendError))
    else Report(Some(DanglingCall(uuid, state)), reply, done)
  }

  /**
   * `main` as a function of what `list_dangling_indices()` returned: any
   * failure to list, or a listing the comprehension cannot read, fails the
   * run before any request.
   */
  function Run(fetched: Fetch, uuid: string, state: DanglingState, checkMode: bool, fault: Fault, reply: Json): (d: Decision)
    ensures checkMode ==> d.call.None?
    ensures !fetched.Found? ==> d == Decision(None, Fail(BackendError))
    ensures d.call.Some? ==> d.call.value == DanglingCall(uuid, state)
  {
    match fetched
    case FetchFailed => Decision(None, Fail(BackendError))
    case NotFound => Decision(None, Fail(BackendError))
    case Found(listing) =>
      match CurrentDangling(listing)
      case None => Decision(None, Fail(BackendError))
      case Some(current) => Decide(Str(uuid) in current, uuid, state, checkMode, fault, reply)
  }

  /** The dangling indices after a run's request: a refused request changes nothing. */
  function DanglingAfter(dangling: seq<DanglingEntry>, call: Option<Call>, fault: Fault): (r: seq<DanglingEntry>)
    ensures call.Some? && fault != MutationFails && DanglingAccepts(dangling, call.value) ==>
              Uuids(r) == Uuids(dangling) - {call.value.uuid}
  {
    if call.Some? && fault != MutationFails && DanglingAccepts(dangling, call.value)
    then Without(dangling, call.value.uuid) else dangling
  }

  /** The imported indices after a run's request. */
  function ImportedAfter(dangling: seq<DanglingEntry>, imported: set<string>, call: Option<Call>, fault: Fault): (r: set<string>)
    ensures imported <= r
    ensures r - imported <= (if call.Some? && call.value.ImportDangling? then {call.value.uuid} else {})
  {
    if call.Some? && call.value.ImportDangling? && fault != MutationFails && DanglingAccepts(dangling, call.value)
    then imported + {call.value.uuid} else imported
  }

  // ---------------------------------------------------------------------------
  // Properties
  // ---------------------------------------------------------------------------

  /** Reading the cluster's own listing yields exactly the uuids of its dangling indices. */
  lemma {:induction false} ListingUuids(dangling: seq<DanglingEntry>)
    ensures CurrentDangling(ListingDoc(dangling)).Some?
    ensures forall u :: Str(u) in CurrentDangling(ListingDoc(dangling)).value <==> u in Uuids(dangling)
  {
    var entries := ListingEntries(dangling);
    assert Index(ListingDoc(dangling), "dangling_indices") == Some(Arr(entries));
    forall i | 0 <= i < |entries|
      ensures Index(entries[i], "index_uuid") == Some(Str(dangling[i].uuid))
    {
      assert entries[i] == Obj([Member("index_name", Str(dangling[i].name)), Member("index_uuid", Str(dangling[i].uuid))]);
    }
    var r := UuidsOfItems(entries);
    assert r.Some?;
    forall u ensures Str(u) in r.value <==> u in Uuids(dangling) {
      if Str(u) in r.value {
        var i :| 0 <= i < |r.value| && r.value[i] == Str(u);
        assert dangling[i].uuid == u;
      }
      if u in Uuids(dangling) {
        var i :| 0 <= i < |dangling| && dangling[i].uuid == u;
        assert r.value[i] == Str(u);
      }
    }
  }

  /** Against a cluster, the run decides on whether the uuid is one of its dangling indices. */
  lemma RunOnStore(dangling: seq<DanglingEntry>, uuid: string, state: DanglingState, checkMode: bool, fault: Fault, reply: Json)
    ensures Run(Found(ListingDoc(dangling)), uuid, state, checkMode, fault, reply)
         == Decide(uuid in Uuids(dangling), uuid, state, checkMode, fault, reply)
  {
    ListingUuids(dangling);
  }

  /** Every request the cluster receives is accepted unless it fails outright. */
  lemma RequestsAreAccepted(dangling: seq<DanglingEntry>, uuid: string, state: DanglingState, checkMode: bool, fault: Fault, reply: Json)
    ensures var d := Run(Found(ListingDoc(dangling)), uuid, state, checkMode, fault, reply);
      d.call.Some? ==> DanglingAccepts(dangling, d.call.value)
  {
    RunOnStore(dangling, uuid, state, checkMode, fault, reply);
  }

  /**
   * Idempotence: after a run has imported or deleted the index, a second run
   * no longer finds it and changes nothing.
   */
  lemma SecondRunIsNoOp(dangling: seq<DanglingEntry>, uuid: string, state: DanglingState, checkMode2: bool, reply: Json)
    ensures var first := Run(Found(ListingDoc(dangling)), uuid, state, false, NoFault, reply);
      var after := DanglingAfter(dangling, first.call, NoFault);
      && uuid !in Uuids(after)
      && Run(Found(ListingDoc(after)), uuid, state, checkMode2, NoFault, reply).outcome
         == Exit(false, if state == ImportedState then NotFoundProbablyImported else NotFoundProbablyDeleted, None, None)
      && Run(Found(ListingDoc(after)), uuid, state, checkMode2, NoFault, reply).call.None?
  {
    var first := Run(Found(ListingDoc(dangling)), uuid, state, false, NoFault, reply);
    RunOnStore(dangling, uuid, state, false, NoFault, reply);
    var after := DanglingAfter(dangling, first.call, NoFault);
    RunOnStore(after, uuid, state, checkMode2, NoFault, reply);
  }

  /** A successful import brings the index into the cluster. */
  lemma ImportBringsIndexIn(dangling: seq<DanglingEntry>, imported: set<string>, uuid: string, reply: Json)
    ensures var d := Run(Found(ListingDoc(dangling)), uuid, ImportedState, false, NoFault, reply);
      d.outcome.Exit? && d.outcome.changed ==> uuid in ImportedAfter(dangling, imported, d.call, NoFault)
  {
    RunOnStore(dangling, uuid, ImportedState, false, NoFault, reply);
  }

  // ---------------------------------------------------------------------------
  // `main`, step by step against the cluster
  // ---------------------------------------------------------------------------

  /** `main` from the listing on: one listing, then at most one import or delete. */
  method Reconcile(store: DanglingStore, uuid: string, state: DanglingState, checkMode: bool, fault: Fault)
    returns (outcome: Outcome)
    modifies store
    ensures var d := Run(if fault == ReadFails then FetchFailed else Found(ListingDoc(old(store.dangling))),
                         uuid, state, checkMode, fault, store.reply);
      && outcome == d.outcome
      && store.dangling == DanglingAfter(old(store.dangling), d.call, fault)
      && store.imported == ImportedAfter(old(store.dangling), old(store.imported), d.call, fault)
      && store.calls == old(store.calls) + CallLog(d.call)
    ensures |store.calls| <= |old(store.calls)| + 1
    ensures checkMode ==> store.dangling == old(store.dangling) && store.imported == old(store.imported)
                          && store.calls == old(store.calls)
  {
    var fetched := store.List(fault == ReadFails);
    if !fetched.Found? {
      return Fail(BackendError);
    }
    ListingUuids(store.dangling);
    var current := CurrentDangling(fetched.doc);
    if current.None? {
      return Fail(BackendError);
    }
    var done := if state == ImportedState then DanglingImported else DanglingDeleted;
    if Str(uuid) !in current.value {
      if state == ImportedState {
        return Exit(false, NotFoundProbablyImported, None, None);
      } else {
        return Exit(false, NotFoundProbablyDeleted, None, None);
      }
    }
    var response: Json;
    if checkMode {
      response := Ack;
    } else {
      var answer: Option<Json>;
      if state == ImportedState {
        answer := store.Import(uuid, true, fault == MutationFails);
      } else {
        answer := store.Delete(uuid, true, fault == MutationFails);
      }
      if answer.None? {
        return Fail(BackendError);
      }
      response := answer.value;
    }
    if !SpreadsIntoResult(response) {
      return Fail(InvalidResponse);
    }
    return Exit(true, done, None, Some(response));
  }
}
