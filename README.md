# fuego, modelled in Dafny

fuego is a thin Go wrapper over the Firestore client, with two parts:

- Document handles and typed field accessors: number, string, boolean, timestamp, array, map, and an untyped field.
- Collection handles. These retrieve every document and apply a field write or a delete to a whole collection, in batched writes of at most 500 operations.

The package root also has an older API that takes a path and an id on every call.

This project models that logic against an abstract in-memory document store (`Store.Firestore`):

- A store is a map from document references `(collection, id)` to documents.
- A document maps field names to values.
- A value is one of: string, int64, bool, array, nested map, or timestamp.

The store offers these primitives, and the wrapper's code is modelled on top of them:

- `Get`.
- A plain `Set`, which replaces the whole document.
- A `MergeAll` `Set`, which changes only the fields it names. It merges non-empty nested maps key by key and replaces every other value whole.
- `Delete`.
- Batch `Commit`, which applies all of a batch's writes or none.
- `DataAt`.

Every store call that can fail takes a fault oracle:

- `Option<nat>` for a single call.
- `nat -> Option<nat>` for the i-th batch commit or iterator step.

A failure passes the store's error back unchanged, as `StoreFailure(code)`. A ghost log, `commits`, records every batch commit attempt, in order.

Mutating operations are methods on the store object. Each one states the new store as a function of the old one. Lemmas then prove the promised properties about those functions: round trips, "nothing else changes", defaults, and batch placement and coverage.

The `MergeAll` write is modelled as merging nested maps key by key. `Merge` is documented as merging with the existing data (document/map.go:16-17), and the merge scenario at integration_test.go:369-400 expects a two-entry map to keep both entries.

Increment and Decrement set an absent field to 1 and 0 (document/number.go:19-23). A failing transactional Get aborts with its error (document/number.go:66-69). Only a failing `DataAt` falls back to the default.

## Model

| member | source | states |
|---|---|---|
| Batching.CalculateRequiredBatches | collection/internal/collection.go:9-16 | the batch count `r` has capacity for every operation (`r*500 >= n`) and is minimal (`(r-1)*500 < n`) |
| Batching.RequiredBatchesIsCeiling | collection/internal/collection.go:14-16 | those two bounds determine the result: it is exactly ceil(n/500) |
| Batching.RequiredBatchesZeroIff | collection/internal/collection.go:14-16 | the count is 0 exactly when there are no operations |
| Batching.RequiredBatchesMonotone | collection/internal/collection.go:14-16 | more operations never need fewer batches |
| Batching.RequiredBatchesExamples | collection/internal/collection_test.go:14-39 | 0→0, 1→1, 500→1, 501→2, 3100→7 |
| Collection.OpFor | collection/collection.go:94-96 | SetForAll queues a merge-write of `{fieldName: fieldValue}` for each document (collection.go:118); DeleteAll queues a delete of it (collection.go:161) |
| Collection.Ops | collection/collection.go:108-119 | one write per enumerated reference, in enumeration order |
| Collection.Chunks | collection/collection.go:98-103 | the number of batches is `CalculateRequiredBatches` of the number of writes |
| Collection.ChunkSizes | collection/collection.go:112-118 | every batch holds between 1 and 500 writes; every batch but the last holds exactly 500 |
| Collection.Placement | collection/collection.go:106-119 | write i lands in batch i div 500, at position i mod 500 |
| Collection.FlattenPrefix | collection/collection.go:121-127 | the first k batches hold exactly the first min(500k, n) writes, in order |
| Collection.BatchesCoverAll | collection/collection.go:106-119 | the batches laid end to end are exactly the writes: each is placed once, in order |
| Collection.FillBatches | collection/collection.go:98-119 | the running counters `currentBatch`/`currentBatchOpCount` fill an array of `CalculateRequiredBatches(n)` batches that equals `Chunks` of the writes; loop invariants keep the batch index in range and no batch above 500, and the counter resets exactly when it reaches 500 |
| Collection.FirstFault | collection/collection.go:122-127 | the index of the first failing commit at or after `from`, or the count when none fails |
| Collection.CommitBatches | collection/collection.go:121-129 | commits in batch order; at the first failing commit k it returns that error; batches before k stay applied; batch k is attempted and nothing after it; logged commits are exactly the attempted batches |
| Collection.MergesAppliedAt | collection/collection.go:118 | after the SetForAll writes, a listed document is merged once with `{name: value}` (a repeated reference is harmless), and any other document is as it was |
| Collection.DeletesApplied | collection/collection.go:161 | applying the DeleteAll writes removes exactly the listed documents |
| Collection.SetForAllCompleted | collection/collection.go:94-96 | for a listing that covers the collection and names only existing documents (repeats allowed), every document of the collection gets the field merged in; other fields and other collections are unchanged |
| Collection.DeleteAllCompleted | collection/collection.go:134-173 | for a listing that covers the collection (repeats and references without a document allowed), no document of the collection remains and other documents are unchanged |
| Collection.FirestoreCollection.BulkWrite | collection/collection.go:88-127 | an enumeration error is swallowed (nil, no write, no commit); otherwise the first min(500k, n) writes are applied for the first failing batch k, with that batch's error |
| Collection.FirestoreCollection.SetForAll | collection/collection.go:87-130 | for any listing, as BulkWrite for merge-writes; on full success every listed reference holds the merge of its old content (or of nothing) with the field, and every other document is unchanged; for a covering listing of existing documents the store is `MergedCollection` |
| Collection.FirestoreCollection.DeleteAll | collection/collection.go:134-173 | for any listing, as BulkWrite for deletes; on full success exactly the listed documents are gone, so a covering listing empties the collection; with no documents there are no commits and the result is nil |
| Collection.FirestoreCollection.Retrieve | collection/collection.go:57-76 | stops with nil and the error at the first failing iterator step or decode; otherwise a non-nil sequence with one entry per document |
| Collection.FirstStop | collection/collection.go:60-74 | the first step that ends Retrieve with an error, or n+1 when iteration ends cleanly |
| Collection.RetrieveEmptyCollection | integration_test.go:149-158 | an empty collection with no faults yields the empty, non-nil result |
| Values.Add1 | document/number.go:74 | `v + 1` in int64: equal to v+1 below MaxInt64, and congruent to it modulo 2^64 |
| Values.Sub1 | document/number.go:106 | `v - 1` in int64, the mirror of Add1 |
| Values.Sub1Add1 | integration_test.go:278-328 | subtracting one undoes adding one, across the wrap-around too |
| Values.MergeValue | integration_test.go:369-400 | a merge-write replaces any value except a non-empty map whole; a non-empty map stays a map |
| Values.MergeFields | document/map.go:52-57 | a merge keeps every old key, adds the new ones, merges the named keys, and keeps the values of the rest |
| Values.MergeValueIdempotent | collection/collection.go:118 | writing the same merge twice leaves the value as writing it once |
| Values.MergeFieldsIdempotent | collection/collection.go:118 | the same for whole documents, which makes a repeated or retried merge harmless |
| Store.ErrorOf | document/internal/document.go:10-13 | a store error passes through unchanged; no fault means no error |
| Store.Snapshot.DataAt | document/internal/document.go:15 | a field read fails for an absent document and for an absent field; otherwise it returns the field, both directions |
| Store.ApplyWrite | document/document.go:99-100 | each write changes only its own document; only a delete removes it |
| Store.AfterWrite | document/number.go:50-53 | a failed write leaves the store as it was |
| Store.ApplyWritesAppend | collection/collection.go:121-127 | applying two write sequences in turn equals applying their concatenation |
| Store.MergeWriteChangesOnlyField | document/number.go:50-53 | a one-field merge-write changes that field alone, to the merge of its old value, and creates the document if absent |
| Store.MergeWriteReadBack | document/field.go:62-69 | the merged field reads back as the merged value |
| Store.FieldWriteReplaces | document/array.go:46-51 | a merge-write of anything but a non-empty map reads back exactly as written, nothing else changed |
| Store.ReplaceFieldExact | document/map.go:59-65 | the corrected override makes the field exactly the given value and changes nothing else |
| Store.Firestore.Get | document/internal/document.go:10-13 | a Get fails exactly when its oracle says so, with that error; otherwise it returns the document's snapshot |
| Store.Firestore.Perform | document/string.go:38-44 | one write, applied unless it fails; the error is returned |
| Store.Firestore.Commit | collection/collection.go:123 | a batch commit applies all of its writes or none, and is logged |
| Document.WriteBatch.Set | document/document.go:95-98 | appends a Set to the pending writes |
| Document.WriteBatch.Delete | document/document.go:136-139 | appends a Delete to the pending writes |
| Document.FirestoreDocument.New | document/document.go:72-80 | the handle's path, id and batch are as given |
| Document.FirestoreDocument.GetDocumentRef | document/document.go:83-90 | `Doc(ID)` of the collection; for an empty ID, the freshly generated document |
| Document.FirestoreDocument.InBatch | document/document.go:200-207 | true exactly when `Batch()` is non-null |
| Document.FirestoreDocument.Create | document/document.go:93-101 | in a batch, only appends a Set, returns nil and leaves the store unchanged; otherwise a plain Set replaces the document, with the store's error returned |
| Document.FirestoreDocument.Retrieve | document/document.go:106-121 | a Get error is passed on; an absent document gives ErrDocumentNotExist, as it always does for a generated id; otherwise the decoded content, or the decode error |
| Document.FirestoreDocument.Exists | document/document.go:124-131 | true exactly when the Get succeeds and the document exists; false for a generated id |
| Document.FirestoreDocument.Delete | document/document.go:134-146 | in a batch, only appends a Delete, returns nil and leaves the store unchanged; otherwise removes the document, with the store's error returned |
| DocumentInternal.RetrieveFieldValue | document/internal/document.go:9-16 | a Get error is passed on; otherwise exactly `DataAt(fieldName)`; it never returns ErrDocumentNotExist, and it only reads |
| NumberField.Incremented | document/number.go:71-75 | 1 when the field read fails; otherwise the stored value plus one in int64 |
| NumberField.Decremented | document/number.go:103-107 | 0 when the field read fails; otherwise the stored value minus one in int64 |
| NumberField.UpdateThenRetrieve | integration_test.go:252-276 | after `Update(v)` the field reads back v; other fields and documents are unchanged |
| NumberField.IncrementAbsentField | document/number.go:19-23 | an absent field becomes 1 after Increment and 0 after Decrement; an absent document does too, but only under the model's Get of a missing document (see "## Left out"): the real client's NotFound error makes Increment abort (document/number.go:66-69) |
| NumberField.IncrementThenDecrementRestores | integration_test.go:278-328 | Increment then Decrement restores the whole store (31→32→31) |
| NumberField.Number.Retrieve | document/number.go:37-44 | the stored number; or 0 with the error when the read fails |
| NumberField.Number.Update | document/number.go:48-54 | a merge-write of `{Name: with}` |
| NumberField.Number.Increment | document/number.go:61-86 | a failing transactional Get aborts with its error and no write; otherwise it merge-writes `Incremented` of the read, and the commit's error is returned |
| NumberField.Number.Decrement | document/number.go:93-118 | the same, writing `Decremented` |
| ArrayField.OverrideThenRetrieve | integration_test.go:463-486 | after `Override(data)` the field is exactly `data` with len(data) elements; other fields are unchanged |
| ArrayField.AppendExtends | document/array.go:66-75 | the appended array holds the old elements as a prefix and then `data`; its length is old + len(data); other fields are unchanged |
| ArrayField.Array.Retrieve | document/array.go:35-42 | the stored elements; or nil with the error when the read fails |
| ArrayField.Array.Override | document/array.go:46-51 | a merge-write of `{Name: data}` |
| ArrayField.Array.Append | document/array.go:57-82 | a failing Get, or an absent field or document, returns that error with no write; otherwise it writes back old ++ data; with a generated id the read fails and nothing is written |
| DocumentField.Field.Retrieve | document/field.go:43-59 | a Get error is passed on; an absent document gives ErrDocumentNotExist; an absent field gives the missing-field error; succeeds exactly when the field exists |
| DocumentField.Field.Update | document/field.go:62-69 | a merge-write of `{Name: with}` |
| DocumentField.Field.MergeMapWith | document/field.go:72-78 | a merge-write of `{Name: data}` |
| DocumentField.Field.OverrideMapWith | document/field.go:81-87 | the very same write as MergeMapWith, so it yields the same store |
| DocumentField.Field.OverrideMapWithExactly | document/field.go:80-87 | corrected override: the field becomes exactly `data` |
| DocumentField.Field.OverrideArray | document/field.go:90-95 | the field becomes exactly `data` |
| DocumentField.Field.AppendArray | document/field.go:100-125 | like Array.Append: error with no write for an unreadable field or a generated id, otherwise old ++ data |
| MapField.PriorEntries | document/map.go:52-57 | the nested map a merge starts from |
| MapField.MergeUpdatesNamedKeys | document/map.go:52-57 | Merge with non-empty data keeps every other key of the nested map, adds the named ones and writes scalar entries as given; other fields are unchanged |
| MapField.MergeTokensExample | integration_test.go:369-400 | {Android, IOS} merged with {Android: AND_456} keeps two entries, with Android updated |
| MapField.OverrideKeepsUnnamedKeys | document/map.go:59-65 | as written, Override leaves the keys it does not name in place (see Findings) |
| MapField.Map.Retrieve | document/map.go:33-49 | a Get error is passed on; an absent document gives ErrDocumentNotExist; an absent field gives the missing-field error; otherwise the entries |
| MapField.Map.Merge | document/map.go:52-57 | a merge-write of `{Name: data}` |
| MapField.Map.Override | document/map.go:59-65 | the very same write as Merge |
| MapField.Map.OverrideExactly | document/map.go:59-65 | corrected override: the field becomes exactly `data` and nothing else changes |
| StringField.UpdateThenRetrieve | integration_test.go:174-198 | after `Update(v)` the field reads back v ("Mike"); nothing else changes |
| StringField.String.Retrieve | document/string.go:27-34 | the stored string; or "" with the error when the read fails |
| StringField.String.Update | document/string.go:38-44 | a merge-write of `{Name: with}` |
| BooleanField.UpdateThenRetrieve | integration_test.go:213-237 | after `Update(v)` the field reads back v; nothing else changes |
| BooleanField.Boolean.Retrieve | document/boolean.go:27-34 | the stored boolean; or false with the error when the read fails |
| BooleanField.Boolean.Update | document/boolean.go:38-44 | a merge-write of `{Name: with}` |
| TimestampField.LoadLocation | document/timestamp.go:40-43 | "" gives UTC; UTC, Local and known zone names load; any other name fails |
| TimestampField.UpdateThenRetrieve | integration_test.go:343-367 | after `Update(t)` the field holds t's instant, so a Retrieve in any location is Equal to t |
| TimestampField.Timestamp.Retrieve | document/timestamp.go:34-45 | zero time with the error for a failing read, then for an unknown location; otherwise the stored instant in that location |
| TimestampField.Timestamp.Update | document/timestamp.go:49-55 | a merge-write of the instant |
| Fuego.TrimPrefix | fuego.go:25 | removes one leading prefix if present, otherwise leaves the string unchanged |
| Fuego.TrimSuffix | fuego.go:26 | removes one trailing suffix if present, otherwise leaves the string unchanged |
| Fuego.TrimPath | fuego.go:25-26 | removes at most one character from each side, keeping the rest in order |
| Fuego.TrimPathUnwraps | fuego.go:25-26 | exactly one slash per side goes: `"/" + p + "/"` trims to p |
| Fuego.TrimPathDropsLeadingSlash | fuego.go:25-26 | `"/" + p` trims to p for a path with no slash at either end |
| Fuego.TrimPathDropsTrailingSlash | fuego.go:25-26 | `p + "/"` trims to p for a path with no slash at either end |
| Fuego.TrimPathKeepsBarePath | fuego.go:25-26 | a path with no slash at either end is unchanged |
| Fuego.TrimPathExamples | fuego.go:25-26 | "//users" keeps one leading slash; "users//" keeps one trailing slash |
| Fuego.Document | fuego.go:24-28 | a handle on the trimmed path and the given id, outside any batch |
| Fuego.DocumentWithGeneratedID | fuego.go:31-33 | `Document(path, "")`: every resolution is the reference `(trimmed path, newId)`, with `newId` the generated id |
| Fuego.Collection | fuego.go:36-40 | a collection handle on the trimmed path |
| RootDocument.GetDocumentRef | document.go:43-47 | the document id in the collection whose path is trimmed by at most one slash per side |
| RootDocument.SlashSpellingsAgree | document.go:43-47 | "p", "/p", "p/" and "/p/" address the same document |
| RootDocument.Create | document.go:50-53 | a plain Set that replaces the whole document |
| RootDocument.Retrieve | document.go:58-73 | a Get error is passed on; an absent document gives ErrDocumentNotExist; otherwise the decoded content or the decode error |
| RootDocument.Field | document.go:76-92 | a Get error is passed on; an absent document gives ErrDocumentNotExist; an absent field gives a missing-field error; otherwise the field's value |
| RootDocument.Exists | document.go:95-106 | false on a Get error or an absent document, true otherwise |
| RootField.ModeFor | field.go:66-79 | Merge by default; otherwise decided by `opts[0]` alone: Override overrides, Append and anything else merge |
| RootField.OnlyFirstOptionCounts | field.go:67-69 | options after the first are ignored |
| RootField.OverrideMapReplacesDocument | field.go:88-94 | after overrideMap the field equals `with` exactly and every other field of the document is gone |
| RootField.Field.Retrieve | field.go:36-52 | a Get error is passed on; an absent document gives ErrDocumentNotExist; an absent field gives a missing-field error |
| RootField.Field.Update | field.go:55-62 | a merge-write of `{Name: with}` |
| RootField.Field.UpdateMap | field.go:65-80 | dispatches on `ModeFor(opts)`: overrideMap's plain Set, or mergeMap's merge-write |
| RootField.Field.MergeMap | field.go:83-85 | exactly Update with the map |
| RootField.Field.OverrideMap | field.go:88-94 | a plain Set: the document becomes `{Name: with}` |
| Scenarios.NumberScenario | integration_test.go:252-328 | Update(31), then Increment, then Decrement read back 31, 32 and 31 |
| Scenarios.StringScenario | integration_test.go:174-198 | Update("Mike") then Retrieve gives "Mike" |
| Scenarios.ArrayScenario | integration_test.go:438-486 | Append one element to two stored elements gives 3; Override with one gives 1 |
| Scenarios.TimestampScenario | integration_test.go:343-367 | Update(t), then Retrieve in Europe/Berlin, gives a time Equal to t |
| Scenarios.MapScenario | integration_test.go:369-400 | Merge({Android: AND_456}) keeps two tokens, with Android updated |

## Left out

- The Firestore client, network, authentication and contexts. They are replaced by the abstract store, with fault oracles for Get, writes, commits, iteration and decoding.
- Concurrency, and `RunTransaction`'s retries and isolation. Each transaction body (Increment, Decrement, Append, AppendArray) is one atomic step. A failing commit is that step's fault.
- A Get of a missing document. The Firestore client reports it as a NotFound error. The model's Get returns a non-existing snapshot, so the source's ErrDocumentNotExist branches can be reached. The client's NotFound error is one of the faults the Get oracle can inject.
- `DataTo` decoding into Go structs. It is a fault oracle. A document's Retrieve yields the stored content. Collection Retrieve appends the same `sample` every time (collection/collection.go:73), so only the length and order of its result are modelled.
- Batching.CalculateRequiredBatches: the ceiling is computed in integer arithmetic. The source computes it with float64, which agrees for any realistic operation count.
- `RetrieveWith` and query construction (collection/collection.go:80-83). They only swap the embedded query, and the notion of a query is not modelled.
- The batch start, commit and cancel lifecycle. The declared error for it (errors.go:7) is used nowhere in the source. Only the `InBatch` branches of Create and Delete are modelled.
- fuego.go:27 calls `document.New` with three arguments, but document/document.go:72 takes four. Fuego.Document models the call with no batch.
- Go's unchecked type assertions (document/number.go:43,74, document/array.go:71 and the like) panic on a wrongly typed field. They become the precondition `FieldKindIs`.
- The accessor constructors (document/document.go:148-197) only pair the document with a field name. In the model they are the datatype constructors `NumberField.Number(d, name)`, `ArrayField.Array(d, name)` and the like. The client pointer some of them copy is dropped.
- Generated document ids (`ColRef.NewDoc`) are a `newId` parameter. The precondition `Document.FirestoreDocument.FreshFor` is NewDoc's promise that such an id names no existing document. Array.Append and Field.AppendArray resolve the reference twice. With an empty id both resolutions are fresh, absent documents, so the read fails either way. The model resolves once.
- Root field.go calls `f.Document.GetDocumentRef()` without the path and id the root Document requires. It also uses `WriteOption`, `Override`, `Merge` and `Append` without importing them. RootField.Field is therefore taken over an already resolved reference, with the constants of document/option.go.
- Time zones. `time.LoadLocation`'s database is the `zoneDb` parameter. Zone conversion only relabels the location, since Equal compares instants.
- TimestampField.Timestamp.Update: the instant is stored exactly. Firestore keeps microseconds, so in the real store the Equal round trip holds only for whole-microsecond times.
- Field paths. A field name is a single, valid top-level key. The client's `DataAt` takes a dot-separated path and rejects an empty name or one holding `~*/[]`; dotted paths and name validation are not modelled, so the read-back lemmas (Store.MergeWriteReadBack and the typed UpdateThenRetrieve lemmas) hold for every name only in the model.
- Field values outside the closed set (floats, references, geo points, nil, structs). They live behind Go's `interface{}`.

## Findings

| source | as written | input that shows it | evidently intended | confidence | as-written member | corrected member |
|---|---|---|---|---|---|---|
| document/map.go:59-65 | `Override` issues the same `Set(..., MergeAll)` as `Merge`. The nested map is merged, so keys that `data` does not name survive. | Field `Tokens` = {Android: AND_123, IOS: IOS_123}; `Override({Android: AND_789})` leaves IOS in the field | the field becomes exactly `data`, as the doc comment at document/map.go:20-21 says | not executed; high that the write merges | MapField.Map.Override, MapField.OverrideKeepsUnnamedKeys | MapField.Map.OverrideExactly, Store.ReplaceFieldExact |
| document/field.go:80-87 | `OverrideMapWith` issues the same `MergeAll` write as `MergeMapWith`, so it merges as well | the same Tokens field and data | the field becomes exactly `data`, as documented at document/field.go:23-24 and expected by the disabled scenario at integration_test.go:402-436, which wants one entry | not executed; high that the write merges | DocumentField.Field.OverrideMapWith, MapField.OverrideKeepsUnnamedKeys | DocumentField.Field.OverrideMapWithExactly, Store.ReplaceFieldExact |
