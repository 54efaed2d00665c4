# Reggie: publishing service and scenario player, modelled in Dafny

Reggie publishes JSON messages to Google Cloud Pub/Sub. A client names a
registered message type, a topic, optional attributes and a JSON body. The
service checks that the body fits the type, re-serialises it, publishes it,
and answers with the Pub/Sub message id. It stores per-user *scenarios* and
shared *message samples* as JSON objects in a Cloud Storage bucket. A Svelte
UI holds those lists in four stores and plays a scenario back: it sends the
messages of columns 1 to 20 in order, all messages of a column together, and
halts at the first column in which any send fails.

This project models that core and proves properties of it.

- **Service side.**
  - Values are `datatype`s: JSON trees, requests, scenarios, samples, errors
    and HTTP responses.
  - Objects the Java code updates in place are classes:
    - `MessageRegistry` holds its name → class map.
    - `PubSubPublisher` holds its topic → publisher cache, with ghost logs of
      which handles were built and what was handed to them.
    - `CloudStorageService` holds its bucket, modelled as a name-sorted list
      of objects. That order is the one Cloud Storage lists in.
  - The controller and the exception handler are pure. They are a method
    over those objects and a total function.
- **UI stores.** Each store is a class whose fields are the store's `$state`
  fields. Every store method is a Dafny method whose `ensures` gives the
  whole new state.
- **Playback.** `executeColumns` is proved against a specification function,
  `RunFrom`, and the playback promises are proved as lemmas about `RunFrom`.

The outside world is represented by parameters:

| Effect | Parameter |
|---|---|
| Jackson (`ObjectMapper`) | a record of opaque functions |
| Pub/Sub client | `createOk` (publisher creation succeeds) and `sendResult` (the future's value, or none) |
| Cloud Storage calls | `writeOk`, `listOk` and `reachable` flags |
| UI server calls | the value or the thrown object each promise settles with |
| `crypto.randomUUID` | fresh ids supplied by the caller |
| `localStorage` | an optional string field |
| network response to a playback send | a function from (column, position in column) to `PublishResult` |
| a `pause` or `stop` during a run | an optional `Interrupt` naming the column and the point at which the run notices it |

Files:

| file | module | content |
|---|---|---|
| `common.dfy` | `Common` | `Option`, `Result`, `Outcome` |
| `strings.dfy` | `Strings` | prefix and suffix tests; the lexicographic order of object names |
| `utf8.dfy` | `Utf8` | UTF-8 encoder and a strict decoder, with the round trip proved |
| `seqs.dfy` | `Seqs` | order-preserving filter, find and replace, with their lemmas |
| `model.dfy` | `Model` | the shared data shapes; the JSON mapper as opaque functions |
| `exceptions.dfy` | `Exceptions` | the error kinds; `GlobalExceptionHandler` |
| `registry.dfy` | `Registry` | `MessageRegistry`; the configured registry |
| `pubsub.dfy` | `PubSub` | `PubSubPublisher` |
| `publish_api.dfy` | `PublishApi` | `PublishController.publish` |
| `bucket.dfy` | `Bucket` | the bucket as a sorted list of objects: write, delete, contents |
| `storage.dfy` | `CloudStorage` | `CloudStorageService`; key derivation; the delimiter listing |
| `js.dfy` | `Js` | JavaScript truthiness; thrown values |
| `scenario_store.dfy` | `Scenarios` | `ScenarioStore` |
| `playback_store.dfy` | `Playback` | `PlaybackStore`, and `RunFrom` with its lemmas |
| `sample_store.dfy` | `Samples` | `MessageSampleStore` |
| `user_store.dfy` | `Users` | `UserStore` |

## Model

| member | source | states |
|---|---|---|
| Exceptions.Handle | src/main/java/com/foundation/reggie/exception/GlobalExceptionHandler.java:13-35 | Every error kind gets a response. The status is 400 exactly for unknown-type and deserialization errors, and 500 for publish and storage errors. The body is the single entry `error` holding the exception's message. |
| Registry.MessageRegistry.constructor | src/main/java/com/foundation/reggie/registry/MessageRegistry.java:18-20 | A new registry has no bindings and keeps the given mapper. |
| Registry.MessageRegistry.Register | src/main/java/com/foundation/reggie/registry/MessageRegistry.java:22-24 | The name is bound to the class, replacing any earlier binding. Every other name keeps its lookup result. |
| Registry.MessageRegistry.GetClass | src/main/java/com/foundation/reggie/registry/MessageRegistry.java:26-28 | The result is empty exactly when the name was never registered. Otherwise it is the bound class. |
| Registry.MessageRegistry.Deserialize | src/main/java/com/foundation/reggie/registry/MessageRegistry.java:30-41 | An unregistered name fails with "Unknown message type: " + name, and the mapper is not consulted. A registered name whose tree the mapper rejects fails with "Failed to deserialize message as " + name. The call succeeds exactly when the name is registered and the mapper builds an object, and it returns that object. |
| Registry.NewConfiguredRegistry | src/main/java/com/foundation/reggie/config/MessageRegistryConfig.java:19-23 | The application's registry holds exactly the binding "OrderCreated". |
| PubSub.BuildMessage | src/main/java/com/foundation/reggie/service/PubSubPublisher.java:34-39 | The message data is UTF-8 that decodes back to exactly the JSON text. Null attributes give an empty attribute map; otherwise every given attribute is copied. |
| PubSub.PubSubPublisher.constructor | src/main/java/com/foundation/reggie/service/PubSubPublisher.java:24-28 | A new publisher has an empty cache and satisfies the cache invariant. |
| PubSub.PubSubPublisher.GetOrCreatePublisher | src/main/java/com/foundation/reggie/service/PubSubPublisher.java:48-57 | A cached topic returns its cached handle and builds nothing. An uncached topic builds one handle bound to (project, topic), caches it, and records it as built. If building fails, the call fails with "Failed to create publisher for topic: " + topic and nothing changes. A topic's handle is built at most once. |
| PubSub.PubSubPublisher.Publish | src/main/java/com/foundation/reggie/service/PubSubPublisher.java:30-46 | When a handle is obtained, exactly one delivery of the built message reaches that topic's handle. The result is the future's message id, or "Failed to publish message to topic: " + topic for any failure, including a failure to build the handle. Without a handle nothing is sent. The cache invariant is kept. |
| PublishApi.Publish | src/main/java/com/foundation/reggie/controller/PublishController.java:42-53 | An unknown type or a body that does not fit the type is answered 400, and nothing is published. Otherwise the re-serialised object is published once to the requested topic, and that message decodes to the serialised text. The response carries the message id and the re-read payload. A publish failure is answered 500. |
| Bucket.ContentsDomain | src/main/java/com/foundation/reggie/service/CloudStorageService.java:88 | A name has contents in the bucket exactly when an object with that name exists. |
| Bucket.PutSorted | src/main/java/com/foundation/reggie/service/CloudStorageService.java:106 | Writing an object keeps the bucket in name order. |
| Bucket.PutContents | src/main/java/com/foundation/reggie/service/CloudStorageService.java:106 | A write sets that name's contents and changes no other name. |
| Bucket.PutPut | src/main/java/com/foundation/reggie/service/CloudStorageService.java:106 | Last write wins: writing a name twice is the same as writing only the second value. |
| Bucket.PutHolds | src/main/java/com/foundation/reggie/service/CloudStorageService.java:106 | After a write, the bucket holds the object just written. |
| Bucket.RemoveSorted | src/main/java/com/foundation/reggie/service/CloudStorageService.java:88 | Deleting keeps the bucket in name order. |
| Bucket.RemoveContents | src/main/java/com/foundation/reggie/service/CloudStorageService.java:88 | A delete removes exactly that name and leaves every other name's contents alone. |
| Bucket.RemoveAbsent | src/main/java/com/foundation/reggie/service/CloudStorageService.java:88-91 | Deleting a name that is not there leaves the bucket unchanged. |
| CloudStorage.ScenarioBlobName | src/main/java/com/foundation/reggie/service/CloudStorageService.java:39 | A scenario key lies under the user's `/scenarios/` prefix and ends in `.json`. |
| CloudStorage.SampleBlobName | src/main/java/com/foundation/reggie/service/CloudStorageService.java:66 | A sample key lies under `message-samples/` and ends in `.json`. |
| CloudStorage.ScenarioBlobNameInjective | src/main/java/com/foundation/reggie/service/CloudStorageService.java:39 | For one user, distinct scenario ids never share a key. `deleteScenario` (line 76) builds the same key as upsert. |
| CloudStorage.ScenarioBlobNameDeterminesUser | src/main/java/com/foundation/reggie/service/CloudStorageService.java:39 | For user ids without a slash, a scenario key determines both the user and the scenario id. |
| CloudStorage.ScenarioAndSampleNamesDisjoint | src/main/java/com/foundation/reggie/service/CloudStorageService.java:38-69 | A scenario key never equals a sample key, unless the user id is literally "message-samples" or contains a slash. |
| CloudStorage.DecodeAllSpec | src/main/java/com/foundation/reggie/service/CloudStorageService.java:116-121 | Reading a list of documents succeeds exactly when every document parses. The result is then the parsed documents, one per object, in order. |
| CloudStorage.JsonUnderMembers | src/main/java/com/foundation/reggie/service/CloudStorageService.java:115-117 | The documents read are exactly the `.json` objects under the prefix, in name order. |
| CloudStorage.UpsertThenListOnce | src/main/java/com/foundation/reggie/service/CloudStorageService.java:38-46 | After a scenario is written, the user's listing holds that object exactly once. |
| CloudStorage.SegmentOfPrefixed | src/main/java/com/foundation/reggie/service/CloudStorageService.java:51 | An object under `u/` is grouped under the first segment `u`, for a `u` without a slash. |
| CloudStorage.EntryOfPrefixed | src/main/java/com/foundation/reggie/service/CloudStorageService.java:51 | The delimiter listing reports an object under `u/` as the entry `u/`. |
| CloudStorage.EntryShape | src/main/java/com/foundation/reggie/service/CloudStorageService.java:51-55 | A listing entry ending in "/" is a slash-free segment plus "/", and its object lies under it. |
| CloudStorage.DelimitedListingMembers | src/main/java/com/foundation/reggie/service/CloudStorageService.java:51-52 | The delimiter listing holds exactly the entries of the bucket's objects. |
| CloudStorage.UserIdsMembers | src/main/java/com/foundation/reggie/service/CloudStorageService.java:52-57 | An id is reported exactly when some listing entry ends in "/", passes the samples check, and is that id plus "/". |
| CloudStorage.AsWrittenHidesUsers | src/main/java/com/foundation/reggie/service/CloudStorageService.java:55 | Under the check as written, a user whose id merely starts with "message-samples" is never reported, although they own objects. The corrected check reports them. |
| CloudStorage.AsWrittenHidesArchiveUser | src/main/java/com/foundation/reggie/service/CloudStorageService.java:55 | A concrete bucket: the user "message-samples-archive" owns a scenario but is missing from the as-written result. |
| CloudStorage.UserIdsOfBucket | src/main/java/com/foundation/reggie/service/CloudStorageService.java:48-63 | With the corrected check, an id is reported exactly when it is slash-free, is not "message-samples", and some object lies under `id/`. |
| CloudStorage.ReportedUserHasObject | src/main/java/com/foundation/reggie/service/CloudStorageService.java:52-57 | Every reported id owns an object and is neither the samples directory nor slashed. |
| CloudStorage.UserWithObjectReported | src/main/java/com/foundation/reggie/service/CloudStorageService.java:52-57 | Every slash-free user id, other than "message-samples", that owns an object is reported. |
| CloudStorage.ReadFails | src/main/java/com/foundation/reggie/service/CloudStorageService.java:119-124 | One unparsable document fails the whole read. |
| CloudStorage.ReadDocuments | src/main/java/com/foundation/reggie/service/CloudStorageService.java:116-124 | The reading loop yields the parsed `.json` documents of the listing in order, or nothing as soon as one fails to parse. |
| CloudStorage.CloudStorageService.constructor | src/main/java/com/foundation/reggie/service/CloudStorageService.java:29-36 | The service keeps its bucket name and mapper, and the bucket starts sorted. |
| CloudStorage.CloudStorageService.WriteJson | src/main/java/com/foundation/reggie/service/CloudStorageService.java:99-110 | On success, the name's contents become the UTF-8 of the JSON text and nothing else changes. On failure, the result is "Failed to write to Cloud Storage: " + name and the bucket is untouched. Sortedness is kept. |
| CloudStorage.CloudStorageService.DeleteBlob | src/main/java/com/foundation/reggie/service/CloudStorageService.java:85-97 | An absent name fails with "Blob not found: " + name and leaves the bucket unchanged. A present name is removed and nothing else is. An unreachable store fails with "Failed to delete from Cloud Storage: " + name. |
| CloudStorage.CloudStorageService.ReadAllFromPrefix | src/main/java/com/foundation/reggie/service/CloudStorageService.java:112-127 | A list failure, or any unparsable `.json` document under the prefix, fails the whole read with "Failed to read from Cloud Storage with prefix: " + prefix. Otherwise the result is every such document, parsed, in name order. |
| CloudStorage.CloudStorageService.UpsertScenario | src/main/java/com/foundation/reggie/service/CloudStorageService.java:38-42 | The scenario is written under its key and returned unchanged, or the write error is returned and the bucket is untouched. |
| CloudStorage.CloudStorageService.GetAllScenarios | src/main/java/com/foundation/reggie/service/CloudStorageService.java:44-46 | The result is the user's scenario documents, all or nothing. |
| CloudStorage.CloudStorageService.UpsertMessageSample | src/main/java/com/foundation/reggie/service/CloudStorageService.java:65-69 | The sample is written under its key and returned unchanged, or the write error is returned and the bucket is untouched. |
| CloudStorage.CloudStorageService.GetAllMessageSamples | src/main/java/com/foundation/reggie/service/CloudStorageService.java:71-73 | The result is the sample documents, all or nothing. |
| CloudStorage.CloudStorageService.DeleteScenario | src/main/java/com/foundation/reggie/service/CloudStorageService.java:75-78 | The call deletes the same key that upsert writes, with the not-found and failure cases of `deleteBlob`. |
| CloudStorage.CloudStorageService.DeleteMessageSample | src/main/java/com/foundation/reggie/service/CloudStorageService.java:80-83 | The call deletes the same key that upsert writes, with the not-found and failure cases of `deleteBlob`. |
| CloudStorage.CloudStorageService.GetAllUserIds | src/main/java/com/foundation/reggie/service/CloudStorageService.java:48-63 | A list failure gives "Failed to list user IDs from Cloud Storage". Otherwise the result is the delimiter listing's directory entries with the trailing "/" stripped, skipping only the samples directory (corrected check). |
| Scenarios.Clamp | reggie-ui/src/lib/stores/scenario.svelte.ts:135 | A stored column is always in 1..20; `updateColumn` (line 195) clamps the same way. An in-range column is kept, and one outside the range moves to the nearer end. |
| Scenarios.Normalized | reggie-ui/src/lib/stores/scenario.svelte.ts:30-33 | Loaded scenarios keep id, name, messages and order. A missing description becomes "". |
| Scenarios.ImportedMessages | reggie-ui/src/lib/stores/scenario.svelte.ts:69-73 | Imported messages keep their order, columns and payloads, and take the fresh ids. |
| Scenarios.Lookup | reggie-ui/src/lib/stores/scenario.svelte.ts:16-18 | A found scenario is the first one in list order carrying the requested id. Nothing is found exactly when no scenario has that id. |
| Scenarios.WithoutScenario | reggie-ui/src/lib/stores/scenario.svelte.ts:99 | No scenario with the id remains, and every other scenario is kept. |
| Scenarios.ReplaceScenario | reggie-ui/src/lib/stores/scenario.svelte.ts:107-114 | Length and order are kept, scenarios with other ids are untouched, and those with the id become the updated scenario. |
| Scenarios.WithoutMessage | reggie-ui/src/lib/stores/scenario.svelte.ts:157 | No message with the id remains, and every other message is kept. |
| Scenarios.WithPayload | reggie-ui/src/lib/stores/scenario.svelte.ts:176-178 | Messages with the id take the new payload in place. Ids, columns and all other messages are kept. |
| Scenarios.WithColumn | reggie-ui/src/lib/stores/scenario.svelte.ts:194-196 | Messages with the id move to the clamped column in place. Ids, payloads and all other messages are kept. |
| Scenarios.RenameChangesOnlyName | reggie-ui/src/lib/stores/scenario.svelte.ts:107-114 | When scenario ids are unique, renaming changes exactly the name of exactly that scenario. |
| Scenarios.ScenarioStore.constructor | reggie-ui/src/lib/stores/scenario.svelte.ts:8-14 | The store starts empty, with no user, no current scenario and no selection. |
| Scenarios.ScenarioStore.CurrentScenario | reggie-ui/src/lib/stores/scenario.svelte.ts:16-18 | The derived current scenario is in the list and carries the current id. |
| Scenarios.ScenarioStore.SelectedMessage | reggie-ui/src/lib/stores/scenario.svelte.ts:20-22 | The derived selected message belongs to the current scenario and carries the selected id. |
| Scenarios.ScenarioStore.LoadForUser | reggie-ui/src/lib/stores/scenario.svelte.ts:24-42 | The user is switched and loading ends off. A successful load replaces the list, makes the first scenario current and clears the selection. A failed load keeps the list and records the error message, or "Failed to load scenarios". |
| Scenarios.ScenarioStore.ClearForNoUser | reggie-ui/src/lib/stores/scenario.svelte.ts:44-51 | Every field returns to the signed-out state. |
| Scenarios.ScenarioStore.ImportScenario | reggie-ui/src/lib/stores/scenario.svelte.ts:63-80 | With no user (null or ""), the call rejects with "No user selected" and no state has changed. Otherwise one copy is appended under fresh ids, with the description defaulted to "". It becomes current, the selection is cleared, and the result is the new id or the save failure. |
| Scenarios.ScenarioStore.CreateScenario | reggie-ui/src/lib/stores/scenario.svelte.ts:82-95 | With no user, the call rejects before any change. Otherwise an empty scenario is appended and becomes current, and with a fresh id it is the current scenario. The selection is cleared, and the result is the new id or the save failure. |
| Scenarios.ScenarioStore.DeleteScenario | reggie-ui/src/lib/stores/scenario.svelte.ts:97-105 | With no user, nothing happens. Otherwise every scenario with the id is removed. If it was current, the first remaining scenario (or none) becomes current and the selection is cleared; otherwise current and selection are kept. The result is the server's. |
| Scenarios.ScenarioStore.RenameScenario | reggie-ui/src/lib/stores/scenario.svelte.ts:107-114 | An unknown id changes nothing. Otherwise the found scenario, renamed, replaces the scenarios with that id in place, and it is saved. Columns stay in range. |
| Scenarios.ScenarioStore.UpdateDescription | reggie-ui/src/lib/stores/scenario.svelte.ts:116-123 | As rename, for the description. |
| Scenarios.ScenarioStore.SelectScenario | reggie-ui/src/lib/stores/scenario.svelte.ts:125-128 | The id becomes current, whether or not it exists, and the selection is cleared. |
| Scenarios.ScenarioStore.AddMessage | reggie-ui/src/lib/stores/scenario.svelte.ts:130-149 | With no current scenario, the call returns "" and changes nothing. Otherwise the message is appended, in the clamped column, to the current scenario only. It is selected and saved, and every column stays within 1..20. |
| Scenarios.ScenarioStore.RemoveMessage | reggie-ui/src/lib/stores/scenario.svelte.ts:151-166 | The message is filtered out of the current scenario only. The selection is cleared only if it was that message, and the scenario is saved. |
| Scenarios.ScenarioStore.UpdateMessage | reggie-ui/src/lib/stores/scenario.svelte.ts:168-184 | Messages with the id in the current scenario take the new payload in place, and the scenario is saved. |
| Scenarios.ScenarioStore.UpdateColumn | reggie-ui/src/lib/stores/scenario.svelte.ts:186-202 | Messages with the id in the current scenario move to the clamped column, and the scenario is saved. Columns stay in range. |
| Scenarios.ScenarioStore.SelectMessage | reggie-ui/src/lib/stores/scenario.svelte.ts:204-206 | The selection becomes the given id, or none. |
| Scenarios.ScenarioStore.ClearScenario | reggie-ui/src/lib/stores/scenario.svelte.ts:208-220 | The current scenario's messages are emptied, the selection is cleared, and the scenario is saved. |
| Playback.ResultOf | reggie-ui/src/lib/stores/playback.svelte.ts:90-109 | A response is recorded as success exactly when it was ok. A failure records the response's status code. |
| Playback.Responses | reggie-ui/src/lib/stores/playback.svelte.ts:78-83 | One response per message of the column, in message order. |
| Playback.RecordKeys | reggie-ui/src/lib/stores/playback.svelte.ts:89-110 | After a column is recorded, the keys are the earlier keys plus every message id of the column. |
| Playback.RecordGrows | reggie-ui/src/lib/stores/playback.svelte.ts:89-110 | Recording a column never removes an entry. |
| Playback.RecordLatest | reggie-ui/src/lib/stores/playback.svelte.ts:89-110 | Each message's entry holds its own response, or that of a later message with the same id. |
| Playback.RecordUntouched | reggie-ui/src/lib/stores/playback.svelte.ts:91-106 | Entries of other messages are untouched by a column. |
| Playback.FailureMessages | reggie-ui/src/lib/stores/playback.svelte.ts:118-120 | There are never more errors than messages. |
| Playback.FailureMessagesMembers | reggie-ui/src/lib/stores/playback.svelte.ts:113-121 | The errors are "Failed to send " + class name for exactly the failed messages. There is at least one exactly when some message failed. |
| Playback.FailedPositions | reggie-ui/src/lib/stores/playback.svelte.ts:118 | The failed positions are listed in strictly increasing order, each is a failed send, and every failed send is listed. |
| Playback.FailureMessagesInOrder | reggie-ui/src/lib/stores/playback.svelte.ts:118-120 | There is one error per failed position. The i-th error is "Failed to send " + the class name of the message at the i-th failed position, so the errors follow message order. |
| Playback.FailedPositionsCount | reggie-ui/src/lib/stores/playback.svelte.ts:118 | The number of failed positions is the number of sends that failed. |
| Playback.FailureMessagesCount | reggie-ui/src/lib/stores/playback.svelte.ts:118-120 | The number of errors is exactly the number of failed sends, so two failures of one class give two entries. |
| Playback.RunErrorHalts | reggie-ui/src/lib/stores/playback.svelte.ts:69-123 | A run that ends in error stopped at a column with messages, some of which failed. Its errors are that column's failures, every earlier column with messages succeeded, and the failing column is not counted as completed. |
| Playback.RunErrorRecordsColumn | reggie-ui/src/lib/stores/playback.svelte.ts:88-122 | A run that ends in error holds a result for every message of the failing column. |
| Playback.RunCompletedColumns | reggie-ui/src/lib/stores/playback.svelte.ts:113-125 | Without a stop, `completedColumns` never decreases, and it only ever advances to a column whose messages all succeeded. |
| Playback.RunKeepsResults | reggie-ui/src/lib/stores/playback.svelte.ts:69-123 | Without a stop, every result recorded before the run is still there afterwards. |
| Playback.RunCurrentColumn | reggie-ui/src/lib/stores/playback.svelte.ts:69-75 | Without a stop, `currentColumn` either stays or names a column with messages in the run's range; empty columns never become current. |
| Playback.HaltedStatus | reggie-ui/src/lib/stores/playback.svelte.ts:113-135 | A playing run that stops in a column is no longer playing. It is paused only by a pause. It is in error only when some send failed; it then reports that column's failures, holds a result for every message of the column, and does not count the column as completed. |
| Playback.HaltedProgress | reggie-ui/src/lib/stores/playback.svelte.ts:75-135 | Without a stop, a run that halts in a column leaves it current, keeps the earlier results, and counts it completed only if every send in it succeeded. |
| Playback.RunEnds | reggie-ui/src/lib/stores/playback.svelte.ts:69-140 | A run never ends still playing, and it ends paused only when a pause was observed. |
| Playback.RunAllSucceed | reggie-ui/src/lib/stores/playback.svelte.ts:69-140 | An uninterrupted run in which every message succeeds ends idle, with a result for every message in a column it covers. |
| Playback.PlaybackStore.constructor | reggie-ui/src/lib/stores/playback.svelte.ts:4-9 | The store starts idle, with zero counters and no errors or results. |
| Playback.PlaybackStore.Play | reggie-ui/src/lib/stores/playback.svelte.ts:23-39 | While playing, the call is a no-op. When paused, it resumes. Otherwise it resets counters, errors and results and runs from column 1. |
| Playback.PlaybackStore.Resume | reggie-ui/src/lib/stores/playback.svelte.ts:41-47 | The run continues from `completedColumns + 1` and keeps the existing results. |
| Playback.PlaybackStore.Pause | reggie-ui/src/lib/stores/playback.svelte.ts:49-54 | Only a playing store pauses; nothing else changes. |
| Playback.PlaybackStore.Stop | reggie-ui/src/lib/stores/playback.svelte.ts:56-63 | From any state, the store returns to idle with zero counters and empty errors and results. |
| Playback.PlaybackStore.RecordResults | reggie-ui/src/lib/stores/playback.svelte.ts:88-110 | The recording loop records every response in order, changes nothing else, and reports whether any failed. |
| Playback.PlaybackStore.ExecuteColumns | reggie-ui/src/lib/stores/playback.svelte.ts:65-141 | The loop reaches exactly the state `RunFrom` describes, so every lemma above holds of it. |
| Samples.WithoutSample | reggie-ui/src/lib/stores/messageSample.svelte.ts:54-56 | No sample with the id remains, and every other sample is kept. |
| Samples.ReplaceSample | reggie-ui/src/lib/stores/messageSample.svelte.ts:39-41 | Samples with the id are replaced in place; the length, the ids and all other samples are kept. |
| Samples.Optimistic | reggie-ui/src/lib/stores/messageSample.svelte.ts:30-42 | The sample is present afterwards. The list grows by one exactly for a new id, and existing entries with the id are replaced in place. |
| Samples.RollbackRestores | reggie-ui/src/lib/stores/messageSample.svelte.ts:51-58 | Rolling back a new sample's optimistic append restores the list exactly. |
| Samples.FailedDeleteIsPermutation | reggie-ui/src/lib/stores/messageSample.svelte.ts:66-80 | When exactly one sample has the id, a failed delete keeps the same samples, with that one moved to the end. |
| Samples.MessageSampleStore.constructor | reggie-ui/src/lib/stores/messageSample.svelte.ts:4-13 | The store starts empty and loading. |
| Samples.MessageSampleStore.Init | reggie-ui/src/lib/stores/messageSample.svelte.ts:15-27 | Loading ends off. Success replaces the list. Failure keeps it and records the message, or "Failed to load message samples". |
| Samples.MessageSampleStore.UpsertSample | reggie-ui/src/lib/stores/messageSample.svelte.ts:29-60 | On success, the optimistic list is overwritten with the server's copy. On failure, a new sample is withdrawn and a replaced one is kept. The settled value is passed through. |
| Samples.MessageSampleStore.DeleteSample | reggie-ui/src/lib/stores/messageSample.svelte.ts:66-80 | Every sample with the id is removed. On failure, the first removed sample is re-appended at the end, and the failure is passed on. |
| Users.WithUser | reggie-ui/src/lib/stores/user.svelte.ts:45-48 | The id is present afterwards. It is appended only when absent, the others keep their place, and a duplicate-free list stays duplicate-free. |
| Users.RestoredUser | reggie-ui/src/lib/stores/user.svelte.ts:24-27 | The remembered id is taken exactly when it is truthy and among the loaded users; otherwise the selection stays. |
| Users.UserStore.constructor | reggie-ui/src/lib/stores/user.svelte.ts:11-15 | The store starts empty and loading, with the browser's remembered id. |
| Users.UserStore.Init | reggie-ui/src/lib/stores/user.svelte.ts:17-34 | Loading ends off. Success replaces the users and restores the remembered id when it is valid. Failure keeps the state and records the message, or "Failed to load users". |
| Users.UserStore.SelectUser | reggie-ui/src/lib/stores/user.svelte.ts:36-43 | The selection becomes the given id. A truthy id is remembered; null or "" forgets the remembered one. |
| Users.UserStore.AddUser | reggie-ui/src/lib/stores/user.svelte.ts:45-50 | The id is in the list without duplication and becomes the selection. It is remembered unless it is "". |
| Utf8.DecodeEncode | src/main/java/com/foundation/reggie/service/PubSubPublisher.java:35 | Decoding the UTF-8 encoding of any string gives back that string. |

## Left out

- Concurrency is not modelled:
  - the thread safety of the `ConcurrentHashMap`s;
  - `Promise.all` parallelism (a column's responses are a sequence in message order);
  - the 750 ms timer between columns;
  - the un-awaited `resume` inside `play`, and a run that outlives a pause-then-play. The second run replaces the abort controller, so the first run no longer sees an abort. The model runs one execution at a time.
- Aborts are modelled only where a run can notice them: after a column's sends settle, and after the delay. The abort check at the top of each column can never fire without concurrency.
- Jackson is opaque: `treeToValue`, `writeValueAsString`, `readTree` and `readValue` are uninterpreted functions. Their exceptions appear only as the `None` results of parsing. Serialisation failures in `PublishController.publish` are left out.
- PublishApi.Publish: the third response entry (the class's simple name mapped to its declared fields' type names) is not modelled; it uses reflection. So is `Map.of`'s rejection of duplicate keys.
- `PubSubPublisher.shutdown` and the Spring configuration and wiring are left out. Only the registry's initial binding is modelled.
- `StorageController` is not modelled. It only routes requests.
- `api.ts` is not part of this model. Its calls appear only as the outcomes they settle with, and a network error is a `PublishResult` with status 0.
- `crypto.randomUUID` is not modelled: fresh ids are parameters. `structuredClone` is the identity on these immutable values.
- Object contents are the UTF-8 bytes of the JSON text; the content type is not modelled.
- Logging (`log.info`, `console.error`, `console.log`) is left out.
- Columns are integers. JavaScript numbers that are not integers, or are `NaN`, are not modelled.
- CloudStorage.CloudStorageService.GetAllUserIds: computes the corrected check, skipping only the entry "message-samples/". The source skips every entry that starts with "message-samples" (see Findings), so for a bucket holding `message-samples-archive/scenarios/s1.json` the source answers `[]` where this method answers `["message-samples-archive"]`. The as-written result is the function `UserIds` applied with `IsSamplesDirectoryAsWritten`.
- Registry.MessageRegistry.Deserialize: a null `className` is not modelled; the source's `ConcurrentHashMap.get(null)` throws a `NullPointerException`, answered 500 rather than the 400 of an unknown type. A `null` from `treeToValue` (a JSON `null` or missing `message`) is not modelled either: the mapper here either builds an object or rejects the tree.
- PublishApi.Publish: the null-message path is not modelled. There the source serialises and publishes the text "null" (PublishController.java line 46) and then fails with a `NullPointerException` at `message.getClass()` (line 50), answering 500 after the message was sent.
- Scenarios.ScenarioStore.AddMessage: the TypeScript default `column = 1` is not modelled; callers pass the column explicitly, and passing 1 gives the default's behaviour.
- Scenarios.ScenarioStore.ImportScenario: imported columns are not clamped, as in the source. `ColumnsInRange` is therefore not claimed for import or load.

## Findings

| source | as written | input that shows it | evidently intended | confidence | as-written member | corrected member |
|---|---|---|---|---|---|---|
| src/main/java/com/foundation/reggie/service/CloudStorageService.java:55 | `getAllUserIds` skips every listing entry that starts with "message-samples" | a bucket holding `message-samples-archive/scenarios/s1.json`: user "message-samples-archive" is not reported | skip only the shared samples directory `message-samples/`, as the comment on line 54 says | medium, not executed | CloudStorage.AsWrittenHidesArchiveUser | CloudStorage.UserIdsOfBucket |
