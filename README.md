# Template and dangling-index reconcilers of community.elastic, in Dafny

This project models the decision logic of three Ansible modules from the
`community.elastic` collection:

- `elastic_index_template` makes an index template in an Elasticsearch
  cluster match a JSON body read from a file (`state: present`), or removes
  the template (`state: absent`). It supports check mode and diff mode.
- `elastic_component_template` does the same for component templates. It
  produces no diff.
- `elastic_dangling_index` imports a dangling index into the cluster
  (`state: imported`) or deletes it (`state: absent`). The index is named by
  its uuid, and data loss is always accepted.

Each module works the same way. It fetches once, decides, and then issues at
most one mutating request. It ends with `exit_json`, which reports `changed`,
a message and possibly a diff, or with `fail_json`.

The model has these parts:

- `JsonDoc` (json.dfy) defines JSON documents with objects as ordered member
  lists.
  - `Canon` is the document that `json.dumps(..., sort_keys=True)` prints.
    Object keys are sorted recursively, in Python's code-point order.
  - `Content` is the independent meaning of a document: an object is a map
    from keys to values.
  - The central theorem is `SameCanonIffSameContent`. For documents without
    duplicate keys, two serialisations are equal exactly when the documents
    hold the same content. So key order never counts as a difference.
- `Client` (client.dfy) models the cluster as two classes.
  - `TemplateStore` holds a `map<string, Json>` of templates.
  - `DanglingStore` holds the dangling indices and the imported ones.
  - Both keep a ghost log of the mutating requests they receive.
  - The get and list responses are built with the documented shapes.
- `Reconciliation` (reconciliation.dfy) holds what the reconcilers share:
  - outcomes (`Exit`/`Fail`) and message kinds;
  - the put-from-file step;
  - the reference predicate `ChangeNeeded`, which says when a change is needed.
- `IndexTemplate`, `ComponentTemplate` and `DanglingIndex` each model one
  module with the same three layers:
  - a pure decision function, `Decide`/`Run`;
  - lemmas about that function;
  - an imperative `Reconcile` method on the store class. It follows `main`
    step by step. Its postcondition ties the outcome, the new cluster state and
    the request log to `Run`.

Failures are a parameter `fault`: the get or list fails, or the mutating
request fails. The document the cluster answers a mutation with is the
store's `reply`. The desired body is a given `Option<Json>`, where `None`
means the `src` file could not be read or parsed.

## Model

| member | source | states |
|---|---|---|
| JsonDoc.Canon | plugins/modules/elastic_index_template.py:107-108 | the sorted-key form keeps a list's length and an object's key set; an object with distinct keys comes out strictly sorted by key; scalars are unchanged |
| JsonDoc.SortMembers | plugins/modules/elastic_index_template.py:107-108 | `sort_keys` reorders an object's members: the result is a permutation of them |
| JsonDoc.SortSorted | plugins/modules/elastic_index_template.py:107-108 | members with distinct keys come out strictly sorted by key |
| JsonDoc.SortedSameKeys | plugins/modules/elastic_component_template.py:110-111 | two strictly sorted member lists with the same key set list the keys in the same order |
| JsonDoc.CanonPreservesContent | plugins/modules/elastic_index_template.py:107-108 | the sorted-key serialisation holds the same content as the document |
| JsonDoc.CanonIsCanonical | plugins/modules/elastic_index_template.py:107-108 | the serialisation of a well-formed document has every object's keys strictly sorted, at every depth |
| JsonDoc.CanonicalUnique | plugins/modules/elastic_component_template.py:110-111 | two canonical documents with the same content are identical |
| JsonDoc.SameCanonIffSameContent | plugins/modules/elastic_component_template.py:110-112 | two well-formed documents serialise equally if and only if their content is equal |
| JsonDoc.CanonIdempotent | plugins/modules/elastic_index_template.py:107-108 | serialising an already sorted document changes nothing |
| JsonDoc.KeyOrderIrrelevant | plugins/modules/elastic_index_template.py:107-109 | two objects whose members are the same up to order serialise equally |
| JsonDoc.SameUpToKeyOrderWellFormed | plugins/modules/elastic_index_template.py:107-108 | documents that differ only in key order have distinct keys in every object, as parsed dicts do |
| JsonDoc.SameUpToKeyOrderSameContent | plugins/modules/elastic_index_template.py:107-108 | reordering object keys, at any depth, does not change what a document means |
| JsonDoc.SameContentSameUpToKeyOrder | plugins/modules/elastic_component_template.py:110-111 | two well-formed documents with the same meaning differ at most in key order, at any depth |
| JsonDoc.SameCanonIffSameUpToKeyOrder | plugins/modules/elastic_component_template.py:110-112 | two well-formed documents serialise equally if and only if they differ at most in key order, at any depth |
| JsonDoc.KeyOrderNeverCounts | plugins/modules/elastic_index_template.py:107-109 | documents that differ only in key order, at any depth, serialise equally |
| JsonDoc.Lookup | plugins/modules/elastic_index_template.py:150 | a key lookup answers exactly when the key is present, with a value stored under that key |
| JsonDoc.Index | plugins/modules/elastic_index_template.py:150 | `d[key]` succeeds exactly on an object that holds the key |
| JsonDoc.First | plugins/modules/elastic_index_template.py:150 | `x[0]` succeeds exactly on a non-empty list or a non-empty string |
| Client.FetchTemplate | plugins/modules/elastic_index_template.py:75-85 | the get finds a document exactly when it does not fail and the template exists |
| Client.ExtractTemplate | plugins/modules/elastic_index_template.py:150 | the subscript chain succeeds only when the response has the `<kind>s` list, and on the cluster's get response for any name and body it yields that body |
| Client.ExtractGetResponse | plugins/modules/elastic_index_template.py:148-150 | extracting `index_templates[0].index_template` from the cluster's get response gives back the stored body |
| Client.TemplateStore.constructor | plugins/modules/elastic_index_template.py:146 | a cluster holding the given templates, with an empty request log |
| Client.TemplateStore.Get | plugins/modules/elastic_index_template.py:80 | the get changes nothing and returns what `FetchTemplate` describes |
| Client.TemplateStore.Put | plugins/modules/elastic_index_template.py:94 | the put is logged; unless it fails it stores the body under the name and answers with the reply |
| Client.TemplateStore.Delete | plugins/modules/elastic_index_template.py:180 | the delete is logged; it removes the template and is acknowledged exactly when it does not fail and the template exists |
| Client.ListingEntries | plugins/modules/elastic_dangling_index.py:105 | one listing entry per dangling index, carrying its name and uuid |
| Client.ListingDoc | plugins/modules/elastic_dangling_index.py:105 | the listing is an object with one `dangling_indices` list, one item per dangling index |
| Client.Without | plugins/modules/elastic_dangling_index.py:114 | after an import or a delete, exactly the entries of other uuids remain, and the uuid set loses that uuid |
| Client.DanglingStore.constructor | plugins/modules/elastic_dangling_index.py:103 | a cluster with the given dangling and imported indices and an empty request log |
| Client.DanglingStore.List | plugins/modules/elastic_dangling_index.py:105 | the listing changes nothing and returns the cluster's listing document unless it fails |
| Client.DanglingStore.Import | plugins/modules/elastic_dangling_index.py:114 | the import is logged. Only with data loss accepted and the uuid listed does it remove the entry, mark the index imported and answer |
| Client.DanglingStore.Delete | plugins/modules/elastic_dangling_index.py:123 | the delete is logged. Only with data loss accepted and the uuid listed does it remove the entry and answer; nothing is imported |
| Reconciliation.PutFromFile | plugins/modules/elastic_index_template.py:88-99 | an unreadable file fails before any request. Otherwise the put of the file body is issued, and the run succeeds exactly when the put does not fail and its reply is a mapping |
| IndexTemplate.IsDifferent | plugins/modules/elastic_index_template.py:102-110 | never returns `False` (only `True` or `None`), and a body compared with itself is not different |
| IndexTemplate.IsDifferentIffContentDiffers | plugins/modules/elastic_index_template.py:102-110 | `True` exactly when the stored template and the file body hold different content, that is exactly when they differ in more than key order |
| IndexTemplate.KeyOrderNeverDifferent | plugins/modules/elastic_index_template.py:107-110 | bodies that differ only in object key order, at any depth, are not different |
| IndexTemplate.PutAndReport | plugins/modules/elastic_index_template.py:155-162 | check mode issues no put; any put carries the file body under the template's name |
| IndexTemplate.Decide | plugins/modules/elastic_index_template.py:153-183 | check mode issues nothing. Any request is the intended put or delete. A live run reports `changed` exactly when it issued a request. Check mode reports no response, and a live create or update reports the put's reply. With diff requested, a change to `present` reports `before` and `after` (no `before` on create); otherwise there is no diff. Absent/absent is a no-op with "does not exist". The message kind is "created" for a missing template to be present, "updated" or "already exists as configured" for an existing one, and "deleted" for an existing one to be absent, in both modes |
| IndexTemplate.Run | plugins/modules/elastic_index_template.py:79-85 | a failed get fails the run; check mode issues nothing |
| IndexTemplate.RunOnStore | plugins/modules/elastic_index_template.py:148-150 | against a cluster, the run decides on the stored body (missing or null means absent) |
| IndexTemplate.ChangedIffChangeNeeded | plugins/modules/elastic_index_template.py:153-183 | when the run exits, `changed` is true exactly when a create, a content update or a delete is needed, in check mode too |
| IndexTemplate.AbsentNeverReadsSrc | plugins/modules/elastic_index_template.py:163-164 | on `absent` the outcome does not depend on the `src` file |
| IndexTemplate.CheckModeCreateWithoutDiffNeverReadsSrc | plugins/modules/elastic_index_template.py:155-161 | a check-mode create without diff does not depend on the file and reports a change with no response |
| IndexTemplate.FailureCauses | plugins/modules/elastic_index_template.py:92-98 | a run fails only for an unreadable file (before any request), a failed request, or a non-mapping put reply (after the put); with no fault, a readable file and a mapping reply it exits |
| IndexTemplate.SecondRunIsNoOp | plugins/modules/elastic_index_template.py:166-177 | after a successful run to `present`, a second run with the same file is "already exists as configured" and changes nothing |
| IndexTemplate.PutIndexTemplate | plugins/modules/elastic_index_template.py:88-99 | the put method's reply, new templates and request log are those of `PutFromFile` |
| IndexTemplate.Reconcile | plugins/modules/elastic_index_template.py:148-183 | the outcome, the new templates and the request log are those `Run` decides on the fetched template. At most one request is logged, and check mode leaves the cluster and the log untouched |
| ComponentTemplate.IsDifferent | plugins/modules/elastic_component_template.py:106-112 | a body compared with itself is not different |
| ComponentTemplate.IsDifferentIffContentDiffers | plugins/modules/elastic_component_template.py:106-112 | different exactly when the two documents hold different content, that is exactly when they differ in more than key order |
| ComponentTemplate.IsDifferentSymmetric | plugins/modules/elastic_component_template.py:106-112 | the check is symmetric and irreflexive, and is `True` exactly when the index-template check is |
| ComponentTemplate.KeyOrderNeverDifferent | plugins/modules/elastic_component_template.py:110-112 | bodies that differ only in object key order, at any depth, are not different |
| ComponentTemplate.PutAndReport | plugins/modules/elastic_component_template.py:157-163 | check mode issues no put and reports a change without reading the file; any put carries the file body |
| ComponentTemplate.Decide | plugins/modules/elastic_component_template.py:155-183 | check mode issues nothing; any request is the intended one; a live run reports `changed` exactly when it issued a request; no diff is ever reported; absent/absent is a no-op. The message kind is "created", "does not exist", "updated", "already exists as configured" or "deleted", by existence, `state` and whether an update was needed |
| ComponentTemplate.Run | plugins/modules/elastic_component_template.py:83-89 | a failed get fails the run; check mode issues nothing |
| ComponentTemplate.RunOnStore | plugins/modules/elastic_component_template.py:150-152 | against a cluster, the run decides on the stored body |
| ComponentTemplate.ChangedIffChangeNeeded | plugins/modules/elastic_component_template.py:155-183 | when the run exits, `changed` is true exactly when a create, a content update or a delete is needed |
| ComponentTemplate.SrcReadOnlyToCompareOrPut | plugins/modules/elastic_component_template.py:156-165 | on `absent`, and on a check-mode create, the outcome does not depend on the `src` file |
| ComponentTemplate.FailureCauses | plugins/modules/elastic_component_template.py:92-103 | the only failures are an unreadable file, a failed request and a non-mapping put reply |
| ComponentTemplate.AgreesWithIndexTemplate | plugins/modules/elastic_component_template.py:150-183 | without a diff request, both copies of the decision table decide identically |
| ComponentTemplate.SecondRunIsNoOp | plugins/modules/elastic_component_template.py:166-177 | after a successful run to `present`, a second run with the same file changes nothing |
| ComponentTemplate.PutComponentTemplate | plugins/modules/elastic_component_template.py:92-103 | the put method's reply, new templates and request log are those of `PutFromFile` |
| ComponentTemplate.Reconcile | plugins/modules/elastic_component_template.py:150-183 | the outcome, the new templates and the request log are those `Run` decides. At most one request is logged, and check mode leaves the cluster and the log untouched |
| DanglingIndex.UuidsOfItems | plugins/modules/elastic_dangling_index.py:105 | the comprehension succeeds exactly when every item holds `index_uuid`, and then collects those values in order |
| DanglingIndex.CurrentDangling | plugins/modules/elastic_dangling_index.py:105 | reading the uuids needs a `dangling_indices` field, and only a list can yield any uuid. For a list, the uuids are exactly the items' `index_uuid` values, as `UuidsOfItems` collects them |
| DanglingIndex.DanglingCall | plugins/modules/elastic_dangling_index.py:114 | the request is an import for `imported` and a delete for `absent`, on the given uuid, with data loss accepted |
| DanglingIndex.Report | plugins/modules/elastic_dangling_index.py:115 | spreading the response into the result succeeds exactly for a mapping without `changed` or `msg`, and reports a change with that response |
| DanglingIndex.Decide | plugins/modules/elastic_dangling_index.py:107-124 | a request is issued exactly when the uuid is listed and not in check mode. `changed` equals "listed". Unlisted gives "probably already imported/deleted" with no call. Check mode reports the synthetic acknowledgment. A live listed run that exits reports "imported" or "deleted" with the cluster's reply merged into the result. A failure always follows a request |
| DanglingIndex.Run | plugins/modules/elastic_dangling_index.py:101-126 | a listing that fails fails the run before any request; check mode issues nothing |
| DanglingIndex.DanglingAfter | plugins/modules/elastic_dangling_index.py:114 | an accepted request removes its uuid from the dangling uuids |
| DanglingIndex.ImportedAfter | plugins/modules/elastic_dangling_index.py:114 | imported indices only grow, and only by the imported uuid |
| DanglingIndex.ListingUuids | plugins/modules/elastic_dangling_index.py:105 | on the cluster's listing, the extracted uuids are exactly the dangling indices' uuids |
| DanglingIndex.RunOnStore | plugins/modules/elastic_dangling_index.py:105-108 | against a cluster, the run decides solely on whether the uuid is dangling |
| DanglingIndex.RequestsAreAccepted | plugins/modules/elastic_dangling_index.py:114 | every request the run issues is one the cluster accepts |
| DanglingIndex.SecondRunIsNoOp | plugins/modules/elastic_dangling_index.py:107-118 | after a successful import or delete the uuid is gone, and a second run changes nothing |
| DanglingIndex.ImportBringsIndexIn | plugins/modules/elastic_dangling_index.py:110-115 | a run that imports leaves the uuid among the imported indices |
| DanglingIndex.Reconcile | plugins/modules/elastic_dangling_index.py:105-124 | the outcome, the new dangling and imported indices and the request log are those `Run` decides on the listing. At most one request is logged, and check mode leaves the cluster untouched |

## Left out

- `elastic_dangling_index_list` has no decision logic. It passes the listing
  through with `changed=False`.
- Ansible host plumbing is not modelled: argument parsing, `required_together`
  and the missing-library check. `exit_json`/`fail_json` become an `Outcome`.
- The connection (`ElasticHelpers.connect`), authentication and TLS are not
  part of this model.
- Reading and parsing `src` is a given `Option<Json>` body. `None` means the
  file could not be read.
- Only the kind of each message is modelled, not its text. The `str(response)`
  interpolation in the template messages is the outcome's `response` field.
- Numbers are integers, and the exact characters `json.dumps` prints are not
  modelled. `Canon` is the sorted document, and two serialisations are equal
  exactly when the sorted documents are.
- `SameCanonIffSameContent` and the other "different means different content"
  lemmas need documents without duplicate keys (`WellFormed`). With duplicates,
  `json.loads` keeps the last value, and the model's `Lookup` follows that.
- `name` is an exact template name. The source would also accept a wildcard
  or comma-separated pattern: the get could then list several templates, of
  which `[0]` is compared, and the delete would receive the pattern. The
  model's get looks up one exact key and answers with one entry.
- Concurrency is not modelled. Another client could change the template or
  the dangling indices between the get or list and the mutating request.
- Elasticsearch may add defaults to stored templates. Idempotence is proved
  only for a cluster that stores bodies as given.
- Any non-mapping put reply is modelled as the single failure
  `InvalidResponse`. The source's `dict(...)` would accept a sequence of
  key/value pairs.
- IndexTemplate.SecondRunIsNoOp: requires the body not to be JSON `null`. A
  stored `null` is read back as a missing template, as in `main`.
- ComponentTemplate.SecondRunIsNoOp: requires the body not to be JSON `null`,
  for the same reason.
