# Entry reference reconciliation

This project models the part of the entry migration script that reconciles the
category and product references of exported entries against the lookup
service. It also proves what that reconciliation guarantees.

An entry file maps entry IDs to entries. An entry may have a `category` and a
`product` sub-object, and each may hold a `data` array of references
`{ key, id, ... }`. For each kind, `processEntry` looks up every reference by
its key. A reference whose lookup yields an id gets that id written into it.
A reference whose lookup fails is removed. A kind with no references left is
replaced by `{}`. Each successful lookup also records the reference's key
in a per-file summary map under the entry ID, as `categoryKey` or
`productKey`. After an entry is processed, `publish_details` is set to `[]`
when neither `category` nor `product` has any own property left.

Modules:

- `Json` (`json.dfy`): the shape of an entry file. It models only the fields
  the reconciliation reads. Every other property is carried unchanged in a
  `rest` map.
- `Lookup` (`lookup.dfy`): how `getCategoryId`/`getProductId` classify
  an HTTP status and a response body.
- `Reconcile` (`reconcile.dfy`): what the reconciliation computes, as
  functions of the file and of the two lookup services. `Verdict` is what
  `processCategoryData`/`processProductData` return for one reference
  (index.js:130-178). `ReconcileField` is one kind after index.js:46-66 or
  index.js:68-88. `WithPublishRule` is the reset of index.js:104-106.
  `ReconcileFile` is the whole of `processEntryFile` after parsing
  (index.js:94-117).
- `EntryFiles` (`entry_file.dfy`): a class `EntryFile` holding the parsed
  document and the summary map. Its methods update them in place, the way
  `processEntry`, `processCategoryData`/`processProductData` and the loop of
  `processEntryFile` do. Each method is proved to compute exactly the
  functions of `Reconcile`.
- `Properties` (`properties.dfy`): what those functions guarantee.

Each lookup service is a function from a key to the HTTP response it gives
(`Fetch`). The request itself is not modelled. `Promise.all` over a `data`
array is modelled as one lookup after the other, in index order. The
order of `Object.keys` is left open: the file loop takes the pending entry
IDs in any order, and its result is proved not to depend on that order.

Behaviour of the code that the model keeps:

- A category reference without a key (or a `null` element) is kept, untouched
  and not looked up: `processCategoryData` returns `entryMap`, which is not
  `null` (index.js:132-135). A product reference without a key is dropped
  (index.js:158-161).
- The `publish_details` reset tests whether each sub-object has zero own
  properties (index.js:104). It does not test whether `data` is empty. So a
  kind written `{ "data": [] }`, or any sub-object with another property,
  blocks the reset.
- A summary record is made only for a successful lookup. A kept category
  reference without a key records nothing.
- A `null` entry value makes index.js:104 throw. The `catch` at index.js:113-116
  then swallows the error, so the file is not written and `{}` is returned.
  The whole file fails, not just that entry.
- The per-file summaries never reach the aggregate map: `processEntryFile`
  is `async` but is not awaited at index.js:38, so `Object.assign` copies nothing.

## Model

| member | source | states |
|---|---|---|
| Lookup.Classify | index.js:190-201 | Status 404, and any other status outside 200-299, gives `null`. An ok response gives the body's `id` exactly when it is a non-empty string, and `null` otherwise. A network fault or an unparsable ok body throws, and only these do. |
| Lookup.ResolvedId | index.js:139-152 | After `processCategoryData` catches exceptions, a lookup yields an id exactly when the response is ok, parses, and has a non-empty `id`. That id is the body's `id`. (Product: index.js:164-177.) |
| Reconcile.Stamp | index.js:143 | `entryMap[entryID] = { ...entryMap[entryID], categoryKey }`: the entry's record gets the key. The record's other key is kept, or is absent for a new record. Every other entry's record is unchanged. Nothing changes when no key is recorded. |
| EntryFiles.EntryFile.ProcessReference | index.js:130-178 | For one reference, the result is non-null exactly as the reference's verdict says. On success, only that reference's `id` is written and the summary record gets its key. Otherwise the document and the summary are unchanged. |
| EntryFiles.EntryFile.ResolveAll | index.js:47-57 | Resolving all references of a kind gives the per-position results `Survives`. It leaves every reference rewritten (`Rewritten`), and the summary carries the last key recorded. |
| EntryFiles.EntryFile.ProcessKind | index.js:46-66 | The kind becomes exactly `ReconcileField`: filtered by position, or `{}` when nothing is left. The summary gets the kind's recorded key. No other entry changes. (Product: index.js:68-88.) |
| EntryFiles.EntryFile.ProcessEntry | index.js:45-91 | The entry becomes `ProcessedEntry`, with category first and then product. The summary becomes `EntryStamp`. A `null` entry is left alone. |
| EntryFiles.EntryFile.ProcessEntryFile | index.js:94-117 | Processing every entry, in any key order, yields exactly `ReconcileFile`. Either every entry is reconciled and has the `publish_details` rule applied, with that document and summary kept, or the file fails. |
| Properties.ReconcileRefsByPosition | index.js:47-60 | The new `data` array is the references that stay, in their original relative order, each with its `id` set to the resolved id. A reference stays exactly when its key resolves, or when it is a category reference without a key. Position `i` decides the fate of reference `i`. |
| Properties.ReconcileRefsEmpty | index.js:60-65 | The filtered array is empty exactly when no reference stays. |
| Properties.ReconcileRefsAppend | index.js:82 | Filtering a concatenation filters each part: the decision for one reference does not depend on its neighbours. |
| Properties.ReconcileRefsPermutation | index.js:47-60 | Shuffling a kind's references shuffles the survivors: the multiset of surviving references, with their ids, is the same. |
| Properties.ReconcileRefsIdempotent | index.js:60 | Filtering an already filtered array changes nothing. |
| Properties.ReconcileFieldSpec | index.js:46-66 | A kind without a non-empty `data` array is untouched. A kind none of whose references stays becomes `{}` (not `null`, not deleted). Otherwise only its `data` property is replaced, by the non-empty list of survivors. |
| Properties.ReconcileFieldIdempotent | index.js:68-88 | Reconciling a reconciled kind again changes nothing. |
| Properties.FinalEntryIdempotent | index.js:100-107 | Running the entry loop body twice on an entry, with the same lookup answers, equals running it once. |
| Properties.NoOwnKeysAfter | index.js:104 | After reconciliation, a kind has no own properties exactly when either all of its references failed, or it had no non-empty `data` array and no own properties to begin with. |
| Properties.PublishDetailsRule | index.js:104-106 | `publish_details` becomes `[]` exactly when both kinds end without own properties, and is left as it was otherwise. The entry's other properties are unchanged. |
| Properties.EmptyDataArrayKeepsPublishDetails | index.js:104 | In a kind written `{ data: [] }`, `data` is an own property. The kind is left untouched, and `publish_details` stays as it was. |
| Properties.LastRecordedSpec | index.js:142-143 | A kind leaves a key in the summary exactly when at least one of its lookups succeeded. The key left there is the key of a reference whose lookup succeeded. (Product: index.js:167-168.) |
| Properties.EntrySummarySpec | index.js:143 | An entry gets a summary record exactly when one of its lookups succeeded. `categoryKey` / `productKey` is present exactly when a lookup of that kind succeeded, and holds one of the keys that did. (Product: index.js:168.) |
| Properties.ReconcileFileSpec | index.js:100-116 | A file fails exactly when some entry is `null`. Otherwise it keeps the same entry IDs, every entry is reconciled, and the summary has a record exactly for the entries with a successful lookup. |
| Properties.ResolvedCategoryScenario | index.js:140-144 | A file with one category reference whose key resolves to `cat-123` comes out with that id written. Its summary is `{ e1: { categoryKey: "k1" } }`. |
| Properties.UnresolvedCategoryScenario | index.js:63-65 | A category whose only key is not found becomes `{}`. With `product: {}` beside it, `publish_details` is reset to `[]`, and no summary record is made. |

## Left out

- HTTP: `fetch`, the URL building, the bearer header, and the `apiUrl` and
  project key. A lookup is represented by the response it gives.
- The lookup services are modelled as deterministic: the same key always
  gets the same response within one run.
- `getAuthToken` and the startup code: the client-credentials exchange is
  network and authentication handling.
- The logger, chalk and every log line. These do console and file output only.
- Reading and writing the file, `JSON.parse` and `JSON.stringify`, and the
  directory walk in `processDirectory`. A file that fails to parse is not
  modelled.
- The aggregate summary map of the directory walk. It is always empty,
  because the file promises are not awaited.
- `Promise.all` concurrency, and the interleaving of files that comes from
  not awaiting them. The lookups of one `data` array run one after another
  in index order.
- Reconcile.LastRecorded: the key recorded for a kind is the last
  successful one in index order. With real concurrency it is the last one
  to complete. The lemmas state only that it is one of the successful keys.
- Entry values other than `null` and objects, `data` values that are not
  arrays, and keys or ids that are not strings. A `category` or `product`
  value that is not an object is modelled only as absent or `null`.
- `Object.keys` order: the file loop processes entries in an unspecified
  order.
- EntryFiles.EntryFile.ProcessEntryFile: when a file fails, the model states
  nothing about the in-memory document that is then thrown away. It states
  only that the outcome is a failure.
