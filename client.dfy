/**
 * The Elasticsearch client calls the reconcilers make, as operations on an
 * abstract cluster. Templates live in a name-to-body map, dangling indices in
 * the listing the cluster reports. Every mutating call is appended to a ghost
 * log `calls`, so that what a run issued (and with which flags) can be stated.
 *
 * Connection, authentication and transport failures are not modelled beyond a
 * `fails` flag per request: a request that fails changes nothing.
 */
module Client {
  import opened Wrappers
  import opened JsonDoc

  /** A mutating request, with the arguments the modules pass to it. */
  datatype Call =
    | PutTemplate(name: string, body: Json)
    | DeleteTemplate(name: string)
    | ImportDangling(uuid: string, acceptDataLoss: bool)
    | DeleteDangling(uuid: string, acceptDataLoss: bool)

  /** Which request of a run, if any, the network or the server refuses. */
  datatype Fault = NoFault | ReadFails | MutationFails

  /**
   * The answer to a read: the response document, the `NotFoundError` that the
   * template getters turn into `None`, or any other exception.
   */
  datatype Fetch = Found(doc: Json) | NotFound | FetchFailed

  // ---------------------------------------------------------------------------
  // Templates
  // ---------------------------------------------------------------------------

  datatype TemplateKind = IndexTemplates | ComponentTemplates

  /** The top-level key of a get response: `index_templates` or `component_templates`. */
  function ListKey(kind: TemplateKind): string
  {
    match kind
    case IndexTemplates => "index_templates"
    case ComponentTemplates => "component_templates"
  }

  /** The key holding the body in each listed entry: `index_template` or `component_template`. */
  function ItemKey(kind: TemplateKind): string
  {
    match kind
    case IndexTemplates => "index_template"
    case ComponentTemplates => "component_template"
  }

  /** The document a get by name returns for a stored template. */
  function GetResponse(kind: TemplateKind, name: string, body: Json): Json
  {
    Obj([Member(ListKey(kind), Arr([Obj([Member("name", Str(name)), Member(ItemKey(kind), body)])]))])
  }

  /** What a get by name answers against the stored templates. */
  function FetchTemplate(kind: TemplateKind, templates: map<string, Json>, name: string, fails: bool): (r: Fetch)
    ensures r.Found? <==> !fails && name in templates
  {
    if fails then FetchFailed
    else if name in templates then Found(GetResponse(kind, name, templates[name]))
    else NotFound
  }

  /**
   * `before['<kind>s'][0]['<kind>']`: the body inside a get response, or `None`
   * when any of the three subscripts raises.
   */
  function ExtractTemplate(kind: TemplateKind, doc: Json): (r: Option<Json>)
    ensures r.Some? ==> Index(doc, ListKey(kind)).Some?
    ensures forall n, b {:trigger GetResponse(kind, n, b)} :: doc == GetResponse(kind, n, b) ==> r == Some(b)
  {
    match Index(doc, ListKey(kind))
    case None => None
    case Some(list) =>
      match First(list)
      case None => None
      case Some(entry) => Index(entry, ItemKey(kind))
  }

  /** The body a get response carries is the one stored: the compared value comes from the same fetch. */
  lemma ExtractGetResponse(kind: TemplateKind, name: string, body: Json)
    ensures ExtractTemplate(kind, GetResponse(kind, name, body)) == Some(body)
  {
    var entry := Obj([Member("name", Str(name)), Member(ItemKey(kind), body)]);
    assert Lookup(entry.members, ItemKey(kind)) == Some(body);
    assert Index(GetResponse(kind, name, body), ListKey(kind)) == Some(Arr([entry]));
  }

  /** A put creates or overwrites; a delete removes; other calls leave templates alone. */
  function ApplyToTemplates(templates: map<string, Json>, call: Call): (t: map<string, Json>)
    ensures call.PutTemplate? ==> t.Keys == templates.Keys + {call.name} && t[call.name] == call.body
    ensures call.DeleteTemplate? ==> t.Keys == templates.Keys - {call.name}
    ensures forall n | n in templates && n != (if call.PutTemplate? || call.DeleteTemplate? then call.name else n) ::
              n in t && t[n] == templates[n]
  {
    match call
    case PutTemplate(name, body) => templates[name := body]
    case DeleteTemplate(name) => templates - {name}
    case _ => templates
  }

  /** The templates of one namespace (index or component) of a cluster. */
  class TemplateStore {
    const kind: TemplateKind
    /** The document the cluster answers an accepted put or delete with. */
    const reply: Json
    var templates: map<string, Json>
    ghost var calls: seq<Call>

    constructor (kind: TemplateKind, reply: Json, templates: map<string, Json>)
      ensures this.kind == kind && this.reply == reply
      ensures this.templates == templates && calls == []
    {
      this.kind := kind;
      this.reply := reply;
      this.templates := templates;
      calls := [];
    }

    /** `get_index_template` / `get_component_template` by name. */
    method Get(name: string, fails: bool) returns (r: Fetch)
      ensures r == FetchTemplate(kind, templates, name, fails)
    {
      if fails {
        r := FetchFailed;
      } else if name in templates {
        r := Found(GetResponse(kind, name, templates[name]));
      } else {
        r := NotFound;
      }
    }

    /** `put_*_template(name=name, body=body)`: creates or overwrites. */
    method Put(name: string, body: Json, fails: bool) returns (answer: Option<Json>)
      modifies this
      ensures calls == old(calls) + [PutTemplate(name, body)]
      ensures templates == if fails then old(templates) else ApplyToTemplates(old(templates), PutTemplate(name, body))
      ensures answer == if fails then None else Some(reply)
    {
      calls := calls + [PutTemplate(name, body)];
      if fails {
        answer := None;
      } else {
        templates := templates[name := body];
        answer := Some(reply);
      }
    }

    /** `delete_*_template(name=name)`: a name that is not stored raises `NotFoundError`. */
    method Delete(name: string, fails: bool) returns (answer: Option<Json>)
      modifies this
      ensures calls == old(calls) + [DeleteTemplate(name)]
      ensures var accepted := !fails && name in old(templates);
        && templates == (if accepted then ApplyToTemplates(old(templates), DeleteTemplate(name)) else old(templates))
        && answer == (if accepted then Some(reply) else None)
    {
      calls := calls + [DeleteTemplate(name)];
      if fails || name !in templates {
        answer := None;
      } else {
        templates := templates - {name};
        answer := Some(reply);
      }
    }
  }

  // ---------------------------------------------------------------------------
  // Dangling indices
  // ---------------------------------------------------------------------------

  /** One entry of the dangling-index listing. */
  datatype DanglingEntry = DanglingEntry(uuid: string, name: string)

  function Uuids(dangling: seq<DanglingEntry>): set<string>
  {
    set i | 0 <= i < |dangling| :: dangling[i].uuid
  }

  /** The document `list_dangling_indices()` returns. */
  function ListingDoc(dangling: seq<DanglingEntry>): (doc: Json)
    ensures doc.Obj? && |doc.members| == 1 && doc.members[0].key == "dangling_indices"
    ensures doc.members[0].value.Arr? && |doc.members[0].value.items| == |dangling|
  {
    Obj([Member("dangling_indices", Arr(ListingEntries(dangling)))])
  }

  function ListingEntries(dangling: seq<DanglingEntry>): (r: seq<Json>)
    ensures |r| == |dangling|
    ensures forall i | 0 <= i < |dangling| ::
              r[i] == Obj([Member("index_name", Str(dangling[i].name)), Member("index_uuid", Str(dangling[i].uuid))])
  {
    if dangling == [] then []
    else [Obj([Member("index_name", Str(dangling[0].name)), Member("index_uuid", Str(dangling[0].uuid))])]
         + ListingEntries(dangling[1..])
  }

  /** The listing without the entries of `uuid`, as an import or a delete leaves it. */
  function Without(dangling: seq<DanglingEntry>, uuid: string): (r: seq<DanglingEntry>)
    ensures forall x :: x in r <==> x in dangling && x.uuid != uuid
    ensures Uuids(r) == Uuids(dangling) - {uuid}
  {
    if dangling == [] then []
    else
      var rest := Without(dangling[1..], uuid);
      assert Uuids(dangling) == {dangling[0].uuid} + Uuids(dangling[1..]) by {
        forall u | u in Uuids(dangling) ensures u in {dangling[0].uuid} + Uuids(dangling[1..]) {
          var i :| 0 <= i < |dangling| && dangling[i].uuid == u;
          if i > 0 {
            assert dangling[1..][i - 1].uuid == u;
          }
        }
        forall u | u in Uuids(dangling[1..]) ensures u in Uuids(dangling) {
          var i :| 0 <= i < |dangling[1..]| && dangling[1..][i].uuid == u;
          assert dangling[i + 1].uuid == u;
        }
      }
      var r := if dangling[0].uuid == uuid then rest else [dangling[0]] + rest;
      assert forall x :: x in dangling <==> x == dangling[0] || x in dangling[1..];
      assert Uuids(r) == Uuids(dangling) - {uuid} by {
        forall u | u in Uuids(r) ensures u in Uuids(dangling) - {uuid} {
          var i :| 0 <= i < |r| && r[i].uuid == u;
          assert r[i] in r;
          var k :| 0 <= k < |dangling| && dangling[k] == r[i];
        }
        forall u | u in Uuids(dangling) - {uuid} ensures u in Uuids(r) {
          var i :| 0 <= i < |dangling| && dangling[i].uuid == u;
          assert dangling[i] in r;
          var k :| 0 <= k < |r| && r[k] == dangling[i];
        }
      }
      r
  }

  /**
   * What an import or delete of a dangling index does: refused unless data
   * loss is accepted and the uuid is listed; an import also brings the index
   * back into the cluster.
   */
  predicate DanglingAccepts(dangling: seq<DanglingEntry>, call: Call)
  {
    (call.ImportDangling? || call.DeleteDangling?) && call.acceptDataLoss && call.uuid in Uuids(dangling)
  }

  /** The cluster of dangling indices and of the indices imported from them. */
  class DanglingStore {
    /** The document the cluster answers an accepted import or delete with. */
    const reply: Json
    var dangling: seq<DanglingEntry>
    var imported: set<string>
    ghost var calls: seq<Call>

    constructor (reply: Json, dangling: seq<DanglingEntry>, imported: set<string>)
      ensures this.reply == reply && this.dangling == dangling && this.imported == imported && calls == []
    {
      this.reply := reply;
      this.dangling := dangling;
      this.imported := imported;
      calls := [];
    }

    /** `list_dangling_indices()`. */
    method List(fails: bool) returns (r: Fetch)
      ensures r == if fails then FetchFailed else Found(ListingDoc(dangling))
    {
      r := if fails then FetchFailed else Found(ListingDoc(dangling));
    }

    /** `import_dangling_index(index_uuid=uuid, accept_data_loss=acceptDataLoss)`. */
    method Import(uuid: string, acceptDataLoss: bool, fails: bool) returns (answer: Option<Json>)
      modifies this
      ensures calls == old(calls) + [ImportDangling(uuid, acceptDataLoss)]
      ensures var accepted := !fails && DanglingAccepts(old(dangling), ImportDangling(uuid, acceptDataLoss));
        && dangling == (if accepted then Without(old(dangling), uuid) else old(dangling))
        && imported == (if accepted then old(imported) + {uuid} else old(imported))
        && answer == (if accepted then Some(reply) else None)
    {
      calls := calls + [ImportDangling(uuid, acceptDataLoss)];
      if !fails && DanglingAccepts(dangling, ImportDangling(uuid, acceptDataLoss)) {
        dangling := Without(dangling, uuid);
        imported := imported + {uuid};
        answer := Some(reply);
      } else {
        answer := None;
      }
    }

    /** `delete_dangling_index(index_uuid=uuid, accept_data_loss=acceptDataLoss)`. */
    method Delete(uuid: string, acceptDataLoss: bool, fails: bool) returns (answer: Option<Json>)
      modifies this
      ensures calls == old(calls) + [DeleteDangling(uuid, acceptDataLoss)]
      ensures var accepted := !fails && DanglingAccepts(old(dangling), DeleteDangling(uuid, acceptDataLoss));
        && dangling == (if accepted then Without(old(dangling), uuid) else old(dangling))
        && imported == old(imported)
        && answer == (if accepted then Some(reply) else None)
    {
      calls := calls + [DeleteDangling(uuid, acceptDataLoss)];
      if !fails && DanglingAccepts(dangling, DeleteDangling(uuid, acceptDataLoss)) {
        dangling := Without(dangling, uuid);
        answer := Some(reply);
      } else {
        answer := None;
      }
    }
  }
}
