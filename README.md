# capacitor-firestore web bridge, modelled in Dafny

This project models `CapacitorFirestoreWeb`, the browser implementation of the
capacitor-firestore plugin. It also models the value shapes the plugin exchanges
with its host (`src/definitions.ts`). The plugin keeps four pieces of state of
its own:

- the listener registry `subscriptions`, a map from callback id to the
  cancellation handle the Firestore library returned;
- the `pendingActions` counter of writes that have not settled yet;
- the `firestore === null` guard, which decides whether the client exists;
- the Firebase `app`. It is read or set only by `initializeFirestore`
  (`src/web.ts:58-74`), `signInWithCustomToken`, `signOut` and `getApp`, all of
  which are left out, and so is `app`.

Every other piece of the plugin's logic is a translation between its own
shapes and the library's:

- declarative query constraints become `where` filters;
- document and collection snapshots become `{id, path, data}` records.

The model is split into modules:

- `Definitions` holds the wire shapes, the six query operators and
  `createQueryConstraint`.
- `FirestoreSdk` holds stand-ins for the library's values: snapshots, queries,
  cancellation handles and write operations. The library's behaviour is not
  modelled, only the data the plugin reads off it or passes into it.
- `CallbackIds` mints callback ids as the decimal form of the wall-clock time
  in milliseconds.
- `ConstraintTranslator` turns constraints into filters. `SnapshotMapper`
  normalises snapshots.
- `PendingCounter` is the write counter as a trace of dispatch and settle
  events.
- `Sequences` holds facts about sequences without repeated elements, shared by
  the registry's key order and the counter's settled tokens.
- `ListenerRegistry` holds the key order of the registry and the
  `clearAllSnapshotListeners` sweep, as values.
- `Web` holds the class `CapacitorFirestoreWeb`. Its fields are the registry,
  its key order, the counter and the not-initialised flag. Each plugin method
  is a method of the class.
- `Scenarios` holds short runs that chain several calls.

Everything the library decides is a parameter of the method that needs it:

- the clock reading `now`;
- whether the library call throws synchronously (`libraryAccepts`). In the
  writes this covers resolving the reference and `updateDoc`, `setDoc` or
  `deleteDoc` themselves; either way the promise rejects and the raise leaks;
- what `getDoc` or `getDocs` returns;
- whether a cancellation handle throws (`throws`);
- when a write settles (`SettleWrite`).

How each call ends for its caller is a `Reply`:

- `Resolved`: the promise resolves;
- `Rejected`: the promise rejects;
- `Threw`: an exception escapes the call itself. This only happens in the
  methods that are neither `async` nor wrapped in `new Promise`.

### Behaviour as the code has it

The model follows the code wherever the code and the plugin's intent could be
read differently.

- **Id collisions.** A callback id is the millisecond clock written in decimal
  (`src/web.ts:97`, `src/web.ts:233`). Two listeners added in the same
  millisecond get the same id. The second handle overwrites the first, and the
  first can never be cancelled through the plugin
  (`Scenarios.SameMillisecondCollision`). `CallbackIds.IdsCollideIffSameTime`
  shows that this is the only way two ids collide.
- **Key order.** Such ids are 13-digit integers above 2^32 − 2, so they are not
  array-index keys. JavaScript therefore enumerates them in insertion order.
  The class keeps that order in `order`, and an overwritten key keeps its
  place.
- **Writes resolve at dispatch.** All four writes resolve the caller's promise
  right after they hand the write to the library. The `reject(err)` of a later
  failure has no effect on the caller. `addDocument` resolves with the new
  reference's id and path before the write is confirmed.
- **A refused reference leaks a count.** In every write, `pendingActions++`
  runs before `doc(...)` / `collection(...)` resolves the reference. If
  resolving throws, the promise rejects, but the raise is never undone
  (`PendingCounter.LeakIsPermanent`, `Scenarios.RefusedWriteLeaks`).
- **No try in the clear.** `clearAllSnapshotListeners` has no `try`. The first
  handle that throws ends the sweep: its own entry and every later entry stay
  registered, and the exception escapes the call
  (`ListenerRegistry.SweepStopsAtFirstThrow`).
- **Listener removal is not guarded.** `removeSnapshotListener` and
  `clearAllSnapshotListeners` do not check the `firestore === null` guard. The
  model does not require initialisation for them.
- **`path` on document snapshots.** The `DocumentSnapshot` interface in
  `src/definitions.ts` declares only `id` and `data`, but every snapshot the
  plugin builds also carries `path`. The model's `DocumentSnapshot` has all
  three fields.
- **Empty constraint lists.** `if (options.queryConstraints)` is true for any
  array, including an empty one. A present but empty list builds the same
  query as an absent one (`ConstraintTranslator.AbsentIsUnconstrained`).

## Model

| member | source | states |
|---|---|---|
| Definitions.OpStr | src/definitions.ts:37 | every operator is written as one of the six literals `==`, `>=`, `<=`, `<`, `>`, `array-contains` |
| Definitions.ParseOperator | src/definitions.ts:37 | a string is accepted as an operator exactly when it is one of the six literals, and the accepted operator is written as that same string |
| Definitions.ParseOpStr | src/definitions.ts:47-51 | reading back the written form of a constraint's operator gives the operator |
| Definitions.OperatorsClosed | src/definitions.ts:37 | the operator set is closed: every operator is one of exactly six, and the six have pairwise distinct written forms |
| Definitions.CreateQueryConstraint | src/definitions.ts:39-45 | the constraint's `fieldPath`, `opStr` and `value` are exactly the three arguments |
| Definitions.CreateFromParts | src/definitions.ts:39-45 | every constraint is the one `createQueryConstraint` builds from its own three fields (round trip) |
| CallbackIds.DecimalString | src/web.ts:97 | `toString` of a millisecond time is a non-empty run of decimal digits, with a leading zero only for 0, and a single digit exactly below 10 |
| CallbackIds.DecimalRoundTrip | src/web.ts:97 | reading the decimal form of a time back as a number gives that time |
| CallbackIds.TimeToId | src/web.ts:97 | the id minted from the clock is a non-empty string of decimal digits |
| CallbackIds.IdsCollideIffSameTime | src/web.ts:233 | two minted ids are equal if and only if they were minted in the same millisecond |
| ConstraintTranslator.Translate | src/web.ts:213-215 | one `where` filter per constraint, in the same order, each carrying the constraint's field path, operator and value |
| ConstraintTranslator.BuildQuery | src/web.ts:211-219 | the query is on the given collection path; an absent constraint list gives no filters, a present one gives its translation |
| ConstraintTranslator.TranslateRoundTrip | src/web.ts:246-248 | the constraints can be read back from the filters: translation loses nothing |
| ConstraintTranslator.TranslateAppend | src/web.ts:246-248 | translating a concatenation concatenates the translations, so translation keeps order |
| ConstraintTranslator.AbsentIsUnconstrained | src/web.ts:244-252 | an absent and an empty constraint list build the same, unfiltered, query |
| ConstraintTranslator.TranslateInjective | src/web.ts:213-216 | two constraint lists build the same filters only if they are the same list |
| SnapshotMapper.MapDocument | src/web.ts:108-113 | id and path are the snapshot's; `data` is null exactly when the document does not exist, and otherwise holds its fields (the listener callback at `src/web.ts:90-94` builds the same record) |
| SnapshotMapper.MapQueryDocument | src/web.ts:224-228 | a query document keeps its id and path, and its `data` is always its fields, never null |
| SnapshotMapper.MapCollection | src/web.ts:257-263 | one entry per document, in order, each with the document's id, path and non-null fields |
| SnapshotMapper.QueryDocumentIsExistingDocument | src/web.ts:221-231 | a document of a collection snapshot maps as an existing single document would |
| SnapshotMapper.MapCollectionAppend | src/web.ts:257-263 | mapping a concatenation of documents concatenates the mapped collections |
| SnapshotMapper.MapCollectionAllPresent | src/definitions.ts:77-79 | no entry of a mapped collection reports a missing document |
| PendingCounter.Step | src/web.ts:122-131 | each dispatch, refused dispatch or settlement keeps the count equal to the unsettled writes plus the leaked raises |
| PendingCounter.Run | src/web.ts:116-201 | any sequence of write events keeps that balance |
| PendingCounter.RunAppend | src/web.ts:116-201 | running two event sequences in turn is running their concatenation |
| PendingCounter.DispatchesEffect | src/web.ts:122 | `n` dispatches raise the count by exactly `n` and leave the next `n` writes outstanding |
| PendingCounter.SettlementsEffect | src/web.ts:125-131 | settling outstanding writes once each lowers the count by their number, whichever succeed and whichever fail |
| PendingCounter.WritesSettleRestoreCount | src/web.ts:184-194 | after `n` dispatched writes have all settled, in any order and with any outcomes, the count and the set of unsettled writes are what they were before |
| PendingCounter.LeakIsPermanent | src/web.ts:184-185 | every raise whose reference threw before dispatch stays counted forever: the count never drops below the number of such raises |
| ListenerRegistry.Sweep | src/web.ts:280-289 | the try-less `for...in` sweep: it invokes no more handles than there are keys and leaves no more keys; it threw exactly when keys remain, and then the first remaining key is registered and its handle throws (its full characterisation is `SweepStopsAtFirstThrow`) |
| ListenerRegistry.Without | src/web.ts:275 | deleting a key from the enumeration order keeps exactly the other keys, and keeps them distinct |
| ListenerRegistry.WithoutSplice | src/web.ts:285 | deleting a key that occurs once cuts exactly its position out of the order |
| ListenerRegistry.WithoutAbsent | src/web.ts:275 | deleting an absent key leaves the order unchanged |
| ListenerRegistry.SweepAdvance | src/web.ts:281-286 | one turn of the sweep: the first handle runs; if it throws, the sweep ends with every key still registered, otherwise it continues with the later keys |
| ListenerRegistry.SweepStopsAtFirstThrow | src/web.ts:280-289 | the sweep invokes handles in key order up to and including the first that throws; the keys before it are deleted, and it and every later key stay; with no throwing handle every handle runs and nothing stays |
| ListenerRegistry.SweepWithoutThrowClearsAll | src/web.ts:280-289 | when no handle throws, the sweep invokes every stored handle once, in key order, and leaves no key |
| Web.Error.Message | src/web.ts:271 | the plugin's own rejections carry their message (`No callback with id <id>` for an unknown listener), and only a library error has none of its own |
| Web.CapacitorFirestoreWeb.constructor | src/web.ts:45-49 | the plugin starts with no client, no listeners and a zero count |
| Web.CapacitorFirestoreWeb.InitializeFirestore | src/web.ts:74 | afterwards the client is present |
| Web.CapacitorFirestoreWeb.GetPendingActions | src/web.ts:51-55 | resolves with `{count: pendingActions}` and changes nothing |
| Web.CapacitorFirestoreWeb.Store | src/web.ts:98 | the handle is stored under the id, every other entry is unchanged, and an existing entry is overwritten in place in the key order |
| Web.CapacitorFirestoreWeb.Delete | src/web.ts:275 | only that id is removed, from the map and from the key order |
| Web.CapacitorFirestoreWeb.AddDocumentSnapshotListener | src/web.ts:81-101 | rejects without a client and throws when the library refuses the reference, changing nothing in either case; otherwise resolves with the id of the current millisecond and stores the document listener's handle under it, overwriting any entry with that id |
| Web.CapacitorFirestoreWeb.AddCollectionSnapshotListener | src/web.ts:203-237 | as for documents, with the handle listening on the query built from the optional constraints |
| Web.CapacitorFirestoreWeb.GetDocument | src/web.ts:103-114 | rejects without a client or when the library refuses; otherwise resolves with the normalised snapshot, with `data` null exactly when the document does not exist |
| Web.CapacitorFirestoreWeb.GetCollection | src/web.ts:239-265 | rejects without a client or when the library refuses; otherwise resolves with one non-null entry per document the query returns, in order |
| Web.CapacitorFirestoreWeb.Dispatch | src/web.ts:122-124 | raises the count by one; the write goes in flight under a fresh token, or, when the reference throws, the raise is leaked |
| Web.CapacitorFirestoreWeb.UpdateDocument | src/web.ts:116-134 | without a client it rejects and changes nothing; otherwise it raises the count, and it resolves at once unless the reference throws, in which case it rejects and the raise leaks |
| Web.CapacitorFirestoreWeb.SetDocument | src/web.ts:136-156 | as for updates, with the set carrying `{merge}` |
| Web.CapacitorFirestoreWeb.DeleteDocument | src/web.ts:158-176 | as for updates, with a delete in flight |
| Web.CapacitorFirestoreWeb.AddDocument | src/web.ts:178-201 | as for updates, resolving at once with the allocated reference's id and path while the set on it is still in flight |
| Web.CapacitorFirestoreWeb.SettleWrite | src/web.ts:125-131 | settling an in-flight write, on success or failure, lowers the count by one and takes it out of flight; settling anything else changes nothing |
| Web.CapacitorFirestoreWeb.Cancel | src/web.ts:274-275 | invokes the stored handle exactly once and, unless it throws, deletes only that entry |
| Web.CapacitorFirestoreWeb.RemoveSnapshotListener | src/web.ts:267-278 | an unknown id rejects and changes nothing; a known id has its handle invoked exactly once and only its entry removed, or, if the handle throws, the exception escapes and the entry stays |
| Web.CapacitorFirestoreWeb.SweepHead | src/web.ts:281-286 | one turn of the loop cancels the first key still registered and advances the sweep by one step |
| Web.CapacitorFirestoreWeb.ClearAllSnapshotListeners | src/web.ts:280-289 | the handles invoked, the keys left, the entries kept unchanged, and whether the call throws are exactly those of the sweep of the registry in key order |
| Scenarios.SameMillisecondCollision | src/web.ts:97-98 | two listeners added in one millisecond get the same id, and the first handle is no longer stored anywhere in the registry |
| Scenarios.RemoveTwice | src/web.ts:267-278 | removing a listener a second time rejects with `No callback with id <id>` and invokes nothing more |
| Scenarios.WriteThenSettle | src/web.ts:116-134 | a write that resolved at once and later settled, either way, leaves the count and the in-flight writes as they were |
| Scenarios.RefusedWriteLeaks | src/web.ts:142-144 | a set whose reference is refused rejects, but the count stays one higher |
| Scenarios.ClearAllWithoutThrows | src/web.ts:280-289 | when no handle throws, clearing invokes every handle once, in the order the listeners were added, and leaves the registry empty |

## Left out

- The Firestore library itself is not modelled: `onSnapshot`, `getDoc`,
  `getDocs`, `updateDoc`, `setDoc`, `deleteDoc`, `doc`, `collection`, `query`
  and `where`. Its results are parameters, and a synchronous throw from it is
  a boolean parameter. What a `where` filter selects belongs to the store.
- Asynchrony is not modelled. A write's settlement is a separate call,
  `SettleWrite`. When a promise settles relative to others, and snapshot
  callbacks being delivered, are outside the model. So is a handle removing
  listeners from inside a callback.
- The snapshot callbacks passed to the listener methods are not stored: the
  plugin only hands them to the library.
- `Web.CapacitorFirestoreWeb.InitializeFirestore` only records that a client
  exists. The teardown of a previous app and client, the app configuration,
  the cache size and the persistence setting are calls into the library.
  A rejection from `enableIndexedDbPersistence` is not modelled; it comes after
  the client is set.
- `signInWithCustomToken`, `signOut`, `enableNetwork`, `disableNetwork`,
  `getApp` and `getFirestore` are pass-through calls into the library and are
  not modelled.
- The `app` field (`src/web.ts:45`) is not modelled. It is read or set only
  by `initializeFirestore` (`src/web.ts:58-74`), `signInWithCustomToken`,
  `signOut` and `getApp`, all of which are left out.
- `FirestoreConfig`, `CustomToken`, the `@capacitor/cli` augmentation and the
  `CapacitorFirestorePlugin` interface are declarations without behaviour.
- `dist/esm/web.d.ts` is a generated declaration file and is not part of this
  model.
- Payloads (`any` and `T`) are an opaque type parameter `V`. Nothing checks
  their shape.
- Web.CapacitorFirestoreWeb.RemoveSnapshotListener: a callback id that names
  a property inherited from `Object.prototype` (such as `toString`) is not
  modelled. The lookup finds that inherited function instead of `undefined`.
  The model treats every id that was never stored as unknown.
- Web.CapacitorFirestoreWeb.Dispatch: `pendingActions` is a JavaScript number.
  It is modelled as an unbounded natural number, which agrees with it up to
  2^53.
- The clock is the parameter `now`. Nothing is assumed about its moving
  forward.
- Rejection reasons are modelled as an `Error` value with the plugin's own
  message strings. A library error is passed on as `LibraryError` without its
  content.
- Web.CapacitorFirestoreWeb.ClearAllSnapshotListeners: the sweep takes keys
  in insertion order. That holds for clock readings of 2^32 − 1 ms or more,
  that is from 19 February 1970, 17:02:47 UTC on. Ids minted from smaller
  readings would be array-index keys, which `for...in` visits in numeric
  order. Those readings are not modelled separately.
