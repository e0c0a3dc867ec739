# redux-electron-store, modelled in Dafny

redux-electron-store keeps one redux store in Electron's browser (main)
process and one replica store in each renderer process. This project models
the parts that decide what travels between them and what each side does with
it:

- `fillShape` (`Shapes`) projects a tree through a renderer's interest shape
  (`true` leaves, nested objects, functions).
- `filterObject` (`Filter`) subtracts a deletion tree whose `true` leaves mark
  the keys to remove.
- `objectDifference` (`Difference`) computes `{updated, deleted}` between two
  snapshots of the state.
- `objectMerge` (`Merge`) is the right-biased deep merge.
- `Sync` is the replica's delta application: subtract `deleted`, then merge
  `updated`. For snapshots that hold no Date it proves that applying the
  diff of two snapshots to the first rebuilds the second, and that applying
  it again changes nothing.
- `Protocol` holds the shared message shapes and the guarded `doDispatch`:
  pre-callback, reduction, post-callback.
- `Browser` is the browser-process enhancer, the class `BrowserStore`:
  - the registry of renderers (`clients`, `windowMap`, the window `closed`
    listeners);
  - `store.dispatch`, with its source stamping;
  - the broadcast loop. It visits the renderers in ascending id order, which
    is the order `for … in` uses for integer keys, and is specified as a left
    fold (`Sweep`).
- `Renderer` is the renderer-process enhancer, the class `RendererStore`:
  - client ids and the bootstrap of the initial state;
  - `parsedReducer`, with its update flag;
  - local dispatch and forwarding;
  - the broadcast handler with its echo rule.

  Lemmas connect it to the browser side. A replica that is interested in
  everything and has no state transformer converges to the browser's state
  when neither state holds a Date. A synchronous replica ignores
  the echo of its own actions.

State values are JSON-like: `Value` (null, booleans, integers, strings, Dates,
arrays, objects), with `None` standing for `undefined`. An operation that
throws returns `Throws(e)`, with `e` saying why.

Where the documented behaviour and the code differ, the code is followed,
and the stores are built on the code as written. Examples:

- Projecting the deletion `{teams: {'2': true}}` through the interest
  `{teams: {'1': true}}` gives `{teams: {}}` (`Sync.TeamsProjection`), not `{}`.
  The empty object deletes nothing on the replica (`Sync.EmptyDeletionHarmless`).
- When a window re-registers a renderer that it already maps to, the renderer
  deactivates itself, and `BrowserStore.Register` does so too.
- A Date is an object to lodash: the merge descends where a Date meets a Date
  or an object, so a changed Date is not applied over an older one
  (`Merge.ChangedDateKept`). A replica receives JSON-parsed data, where a Date
  has become an ISO string, so this reaches a replica only when its
  `stateTransformer` turns those strings back into Dates.
- When a forwarded action throws, `senderClientId` keeps the renderer's
  client id until the next dispatch (`BrowserStore.HandleRendererDispatch`).

For the last three, the Findings section pairs the as-written behaviour with a
corrected definition and the property proved about it.

## Model

| member | source | states |
|---|---|---|
| Shapes.FillShape | lib/utils/fill-shape.js:42-64 | The result is carved out of the source. An error is a malformed sink leaf or a key read on `null`. An object sink yields an object whose keys are sink keys the source has. |
| Shapes.FillFields | lib/utils/fill-shape.js:53-63 | The object branch: the result is an object whose keys are sink keys the source has, carved out of the source. A `null` source throws exactly when the sink has keys, with the property-of-null error; otherwise an error is a malformed leaf or a nested `null` read. |
| Shapes.ProjectKey | lib/utils/fill-shape.js:55-61 | What a projected key holds is carved out of the source's value. A leaf that is not an object, function or `true` throws the malformed-leaf error. |
| Shapes.TrueAndUndefinedSinks | lib/utils/fill-shape.js:47-51 | A `true` sink returns the source itself. An `undefined` sink returns `undefined`. |
| Shapes.ComputedAppliedFirst | lib/utils/fill-shape.js:43-45 | A function sink is applied to the source, and the shape it returns is used. |
| Shapes.EmptySinkYieldsEmpty | lib/utils/fill-shape.js:53-63 | An empty sink yields `{}` for every source. |
| Shapes.WholeLeavesRestrict | lib/utils/fill-shape.js:54-58 | A sink of `true` leaves restricts the source to the sink's keys, copying the values verbatim. |
| Shapes.KeyProjected | lib/utils/fill-shape.js:54-58 | When the projection succeeds: for a key both the interest and the source object have, its projection succeeds, the key is in the result exactly when its projection yields a value, and then it holds that value. |
| Shapes.WholeLeafVerbatim | lib/utils/fill-shape.js:57-58 | When the projection succeeds, a `true` leaf whose key the source has holds the source's value in the result. |
| Shapes.FieldsThrowExactly | lib/utils/fill-shape.js:54-61 | For an object source, the projection throws exactly when the projection of some key the source and the sink share throws, and reports a malformed leaf exactly when one of those does. |
| Shapes.FitsNeverThrows | lib/utils/fill-shape.js:42-64 | A sink made of `true` leaves and nested objects never throws over a source that has no `null` where the sink asks for keys, so the success conditions above hold there. |
| Shapes.InvalidLeafThrows | lib/utils/fill-shape.js:59-61 | A malformed leaf throws whenever the source has its key. |
| Shapes.AbsentKeyIgnored | lib/utils/fill-shape.js:55-56 | A key the source lacks is skipped before its leaf is examined. Even a malformed leaf there changes nothing. |
| Shapes.DisjointSubtreeYieldsEmpty | lib/utils/fill-shape.js:55-58 | When the projection succeeds, a nested sink disjoint from the source's subtree yields `{}` at that key; the key stays present. |
| Shapes.DisjointSinkYieldsEmpty | lib/utils/fill-shape.js:53-63 | A sink that shares no key with an object source yields `{}`. |
| Shapes.OneKeyProjection | lib/utils/fill-shape.js:54-58 | A one-key source through a one-key sink holds the projection of that key's value. |
| Shapes.ProjectTwice | lib/utils/fill-shape.js:42-64 | When the first projection succeeds with a value, projecting it again through the same function-free shape gives the same result. |
| Filter.FilterObject | lib/utils/filter-object.js:28-46 | The result is truthy and carved out of the source, with no keys the source lacks. An object source gives an object. The only error is a malformed filter leaf. |
| Filter.FilterKey | lib/utils/filter-object.js:37-43 | What a kept key holds is carved out of the source's value. The only error is a malformed filter leaf. |
| Filter.FastPaths | lib/utils/filter-object.js:29-33 | A falsy source or a `true` filter gives `{}`. An empty filter returns a truthy source unchanged. |
| Filter.KeyFate | lib/utils/filter-object.js:36-44 | Per key under a non-empty filter: dropped, copied or recursed into, exactly as the leaf says. |
| Filter.InvalidLeafThrows | lib/utils/filter-object.js:39-40 | A truthy leaf that is neither `true` nor an object throws when the source has the key. |
| Filter.AbsentKeyIgnored | lib/utils/filter-object.js:36 | A filter key the object source lacks has no effect on the result. |
| Filter.AbsentKeyOnly | lib/utils/filter-object.js:36-44 | A filter whose only key the object source lacks gives the source back unchanged. |
| Filter.MarkerTreeNeverThrows | lib/utils/filter-object.js:28-46 | Subtracting a tree made only of objects and `true` never throws. |
| Filter.MissingMarksKeepAll | lib/utils/filter-object.js:28-46 | A marker tree that marks nothing present gives the source back unchanged. |
| Filter.SubtractKey | lib/utils/filter-object.js:28-46 | Subtracting a marker tree from an object never throws and adds no key. A key marked `true` is gone, a key the tree does not name is kept verbatim, and a key with a nested marker object holds the subtree minus that object. |
| Filter.DocumentedExample | lib/utils/filter-object.js:22-25 | `filterObject({a: 1, b: {c: {}}}, {b: {c: true}})` is `{a: 1, b: {}}`. |
| Filter.DocumentedExampleInner | lib/utils/filter-object.js:22-25 | The inner step of that example: `{c: {}}` minus `{c: true}` is `{}`. |
| Merge.ObjectMerge | src/utils/object-merge.js:6-33 | An empty incoming value (a Date counts as empty) returns the base. Otherwise the result's keys are the union of both key sets. Base-only keys keep their values. Incoming keys win unless two distinct non-array lodash objects (plain objects or Dates) meet. |
| Merge.MergeKey | src/utils/object-merge.js:14-23 | Per key of the base: an incoming value wins unless both sides are distinct non-array lodash objects. An absent incoming value keeps the base. |
| Merge.MergeDescends | src/utils/object-merge.js:19-20 | Where two distinct objects meet, the result holds their merge. |
| Merge.MergeSelf | src/utils/object-merge.js:17-18 | Merging an object into itself gives it back. |
| Merge.IncomingSurvives | src/utils/object-merge.js:6-33 | For Date-free trees, every key path of the incoming tree is in the result, with the incoming leaves. |
| Merge.MergeCarved | src/utils/object-merge.js:6-33 | Merging into a tree a part carved out of that tree changes nothing. |
| Merge.MergeTwice | src/utils/object-merge.js:6-33 | Merging the same update twice is the same as merging it once. |
| Merge.ChangedDateKept | src/utils/object-merge.js:8-20 | Merging `{at: Date(2)}` into `{at: Date(1)}` keeps `Date(1)`. |
| Merge.IntendedMerge | src/utils/object-merge.js:6-33 | The corrected merge, descending into plain objects only: the same fast path and key union, with the incoming value winning unless two distinct plain objects meet. |
| Merge.IntendedMergeKey | src/utils/object-merge.js:14-23 | Per key of the corrected merge: an incoming value wins unless both sides are distinct plain objects. |
| Merge.IntendedIncomingSurvives | src/utils/object-merge.js:6-33 | With the corrected merge, every key path of the incoming tree is in the result with the incoming leaves, for all trees, Dates included. |
| Merge.IntendedAgreesWithoutDates | src/utils/object-merge.js:6-33 | On Date-free trees the corrected merge equals the merge as written. |
| Difference.ObjectDifference | lib/utils/object-difference.js:22-58 | `updated` only has keys of the new snapshot and `deleted` only keys of the old one. `deleted` is a marker tree. `updated` is carved out of the new snapshot. |
| Difference.KeyFate | lib/utils/object-difference.js:26-55 | Per key: removed keys are marked `true`, new keys are recorded verbatim, equal values and same-instant Dates are not recorded, and other changes outside the nested case are recorded whole. A key is never both marked and updated. |
| Difference.Descends | lib/utils/object-difference.js:42-45 | The diff descends where the old value is an object or a Date, the new value is an object, and they differ. |
| Difference.Recorded | lib/utils/object-difference.js:27-47 | Outside the descending case a new value is recorded unless it is equal, or a Date at the instant the old value coerces to. |
| Difference.NestedRecorded | lib/utils/object-difference.js:42-45 | Where two distinct objects meet, the nested diff's halves appear under the key exactly when they are non-empty. |
| Difference.DeletedMissesAfter | lib/utils/object-difference.js:52-55 | The deletion tree marks nothing that the new snapshot holds. |
| Difference.SelfDifferenceIsEmpty | lib/utils/object-difference.js:26-27 | Equal snapshots give an empty diff. |
| Difference.NumberBecomesDate | lib/utils/object-difference.js:29-35 | `5` replaced by a Date at instant 5 gives an empty diff. |
| Difference.DateBecomesEmpty | lib/utils/object-difference.js:42-45 | A Date replaced by `{}` gives an empty diff. |
| Difference.DocumentedExample | lib/utils/object-difference.js:58-66 | `objectDifference({a: 1}, {b: 2})` is `{updated: {b: 2}, deleted: {a: true}}`. |
| Difference.OneFlatChange | lib/utils/object-difference.js:22-58 | Two snapshots with the same keys that differ at one flat, non-Date key give a diff that records only that key's new value and deletes nothing. |
| Difference.TeamRerated | lib/utils/object-difference.js:42-48 | Re-rating one team records only the new rating. |
| Difference.RosterChanged | lib/utils/object-difference.js:22-58 | Re-rating team `'1'` and removing team `'2'` records `{'1': {rating: 7}}` and marks `'2'`. |
| Difference.TeamsScenario | lib/utils/object-difference.js:22-58 | The same change one level down gives `updated = {teams: {'1': {rating: 7}}}` and `deleted = {teams: {'2': true}}`. |
| Sync.ApplyDelta | src/electronRendererEnhancer.js:61-65 | Throws exactly when the subtraction throws. With nothing to merge, the result is carved out of the state. With nothing to delete, the result is the merge into the state. |
| Sync.RemainderFate | src/electronRendererEnhancer.js:64 | Subtracting a diff's deletions from the old snapshot removes the removed keys, keeps the unchanged ones, and subtracts nested deletions. |
| Sync.FlatKeyRestored | src/electronRendererEnhancer.js:64-65 | A key whose value changed outside the nested case holds the new value after the delta is applied. |
| Sync.NestedRemainder | src/electronRendererEnhancer.js:64 | At a nested key, what remains is the old subtree minus the nested deletions. |
| Sync.NestedKeyRestored | src/electronRendererEnhancer.js:64-65 | At a nested key, the nested round trip carries over to the whole tree. |
| Sync.MergeAtNestedKey | src/utils/object-merge.js:13-24 | Merging a nested update under a key leaves the nested merge at that key. |
| Sync.RoundTrip | src/electronRendererEnhancer.js:64-65 | For Date-free trees, subtracting `deleted` from the old snapshot and merging in `updated` gives the new snapshot. |
| Sync.RoundTripKey | src/electronRendererEnhancer.js:64-65 | For Date-free snapshots, the round trip at one key: after the delta is applied, every key of the new snapshot holds its new value. |
| Sync.ReapplyChangesNothing | src/electronRendererEnhancer.js:64-65 | Applying a diff to the snapshot it leads to changes nothing. |
| Sync.ApplyTwice | src/electronRendererEnhancer.js:64-65 | For Date-free snapshots, applying the same diff twice gives what applying it once gives. |
| Sync.TeamsProjection | lib/utils/fill-shape.js:42-64 | Through the interest `{teams: {'1': true}}`, the update is forwarded whole and the deletion of team `'2'` becomes `{teams: {}}`. |
| Sync.EmptyDeletionHarmless | lib/utils/filter-object.js:28-46 | That `{teams: {}}` deletes nothing from the replica's teams. |
| Protocol.Guarded | src/electronBrowserEnhancer.js:46-55 | The dispatch completes exactly when neither callback throws and the reduction succeeds. A throwing pre-callback leaves the state as it was. Once the pre-callback passes, the new state is the reduction's result, or the old state with the reducer's error when it throws. |
| Browser.MinOf | src/electronBrowserEnhancer.js:109 | The least of the registered ids. |
| Browser.Ascending | src/electronBrowserEnhancer.js:109 | The registered ids, each once, in strictly ascending order. |
| Browser.Visit | src/electronBrowserEnhancer.js:110-133 | One turn of the loop only deactivates records and sends at most one transfer, to the id it visits. After an error it changes nothing. |
| Browser.Sweep | src/electronBrowserEnhancer.js:109-134 | The loop over the ids in order sends at most one transfer per id. |
| Browser.Message | src/electronBrowserEnhancer.js:127-132 | The transfer carries the action's type and payload, the projected delta and the origin, and no source. |
| Browser.Project | src/electronBrowserEnhancer.js:119-121 | A `true` interest forwards both halves verbatim. An `undefined` interest forwards nothing. Both halves are carved out of the diff. It throws exactly when projecting either half throws (a malformed interest leaf or a key read on `null`); otherwise each half is that half of the diff projected through the interest. |
| Browser.Live | src/electronBrowserEnhancer.js:110-117 | Every id it lists is among the visited ids, registered, active and not dead. |
| Browser.Recipients | src/electronBrowserEnhancer.js:133 | The addressee of each sent transfer, in order. |
| Browser.SweepSafety | src/electronBrowserEnhancer.js:109-134 | The broadcast only deactivates records. It sends only to registered, active, live renderers, each the transfer built from its own projection. |
| Browser.SweepStops | src/electronBrowserEnhancer.js:119-121 | Once a projection throws, the later renderers are neither visited nor changed. |
| Browser.SweepStep | src/electronBrowserEnhancer.js:109-134 | One more id is one more turn of the loop. |
| Browser.SweepDeactivates | src/electronBrowserEnhancer.js:110-117 | A completed broadcast deactivates exactly the dead renderers among the active ones. Every other record is unchanged. |
| Browser.SweepRecipients | src/electronBrowserEnhancer.js:109-134 | A completed broadcast sends exactly one transfer to each live renderer, in ascending id order. |
| Browser.SweepLoop | src/electronBrowserEnhancer.js:109-134 | The loop computes the broadcast fold exactly. |
| Browser.RegisteredAsWritten | src/electronBrowserEnhancer.js:57-83 | Registration as written. An active record leaves everything unchanged. Otherwise the record is written and the window maps to the new id. The renderer the window mapped to is deactivated, even when it is the new id itself, which then ends up inactive. Other records are unchanged. |
| Browser.Registered | src/electronBrowserEnhancer.js:57-83 | Corrected registration. An active record leaves everything unchanged. Otherwise the new record is stored, the window maps to it, and only a different renderer previously mapped by the window is deactivated. |
| Browser.ReRegisterAsWrittenDeactivatesItself | src/electronBrowserEnhancer.js:73-76 | A deactivated renderer that re-registers into the window that maps to it ends up inactive. |
| Browser.ReRegisterKeepsItselfActive | src/electronBrowserEnhancer.js:63-76 | The corrected registration keeps it active. |
| Browser.RegisterKeepsConsistent | src/electronBrowserEnhancer.js:57-83 | The corrected registration keeps the registry consistent: each window has at most one live main renderer. No record is removed and the registered renderer is active. |
| Browser.RegisterAsWrittenKeepsConsistent | src/electronBrowserEnhancer.js:57-83 | Registration as written keeps the registry consistent and removes no record. The registered renderer is active unless its window already mapped to it. |
| Browser.DemotedKeepsConsistent | src/electronBrowserEnhancer.js:37-39 | Deactivating records keeps the registry consistent. |
| Browser.SecondConnectionReplacesFirst | src/electronBrowserEnhancer.js:71-77 | A second renderer registering into the same window deactivates the first, and no broadcast reaches the first. |
| Browser.BrowserStore.constructor | src/electronBrowserEnhancer.js:24-33 | An empty registry, and the source name defaults to `main_process`. |
| Browser.BrowserStore.Unregister | src/electronBrowserEnhancer.js:37-39 | The record stays, marked inactive. |
| Browser.BrowserStore.Register | src/electronBrowserEnhancer.js:57-83 | An active renderer's re-registration changes nothing. Otherwise the new registry is `RegisteredAsWritten` of the old one, and a `closed` listener is added for a main renderer. The registry stays consistent. The renderer ends up active unless its window already mapped to it. |
| Browser.BrowserStore.WindowClosed | src/electronBrowserEnhancer.js:79-81 | Exactly the renderers with a listener on the closed window are deactivated. |
| Browser.BrowserStore.Stamped | src/electronBrowserEnhancer.js:101 | A set `source` is kept; an unset one becomes `currentSource`. Type, payload and data are kept. |
| Browser.BrowserStore.Run | src/electronBrowserEnhancer.js:101-104 | The guarded reduction of the stamped action. Once the pre-callback passes and the reducer succeeds, the new state is the reducer's result; completion means the reducer succeeded. |
| Browser.BrowserStore.DoDispatch | src/electronBrowserEnhancer.js:46-55 | State and outcome are those of `Guarded`. `isDispatching` is false on every exit. |
| Browser.BrowserStore.Broadcast | src/electronBrowserEnhancer.js:109-134 | The registry, the sent transfers and the error are those of the fold over the ascending ids. The registry stays consistent. |
| Browser.BrowserStore.DispatchFalsy | src/electronBrowserEnhancer.js:98-99 | A falsy action goes to the underlying dispatch. Then `senderClientId` is cleared and the listeners run, unless the dispatch threw. |
| Browser.BrowserStore.Publish | src/electronBrowserEnhancer.js:103-138 | The given diff is broadcast under the given origin, which `Dispatch` sets to `senderClientId \|\| currentSource`. On success `senderClientId` is cleared and the listeners run once. On a throw neither happens. |
| Browser.BrowserStore.Dispatch | src/electronBrowserEnhancer.js:97-141 | Stamps the action and runs the guarded reduction. If that completes, it broadcasts. Every exception path leaves the registry and the transfers as stated. |
| Browser.BrowserStore.HandleRendererDispatch | src/electronBrowserEnhancer.js:86-91 | The new state, registry, transfers and result are those of `Dispatch` with the forwarding client as origin. Every transfer sent names that client. If the dispatch throws, `senderClientId` keeps that client id; otherwise it is cleared. |
| Browser.BrowserStore.HandleRendererDispatchReset | src/electronBrowserEnhancer.js:86-91 | The corrected handler: the same state, registry and transfers, with `senderClientId` cleared on every exit. |
| Renderer.DigitChar | src/electronRendererEnhancer.js:50 | The character of a decimal digit. |
| Renderer.Numeral | src/electronRendererEnhancer.js:50 | A non-empty string of decimal digits. |
| Renderer.NumeralRoundTrip | src/electronRendererEnhancer.js:50 | Reading a printed id back gives the id. |
| Renderer.RendererId | src/electronRendererEnhancer.js:35 | The guest instance id when there is one, else the window id. |
| Renderer.ClientId | src/electronRendererEnhancer.js:35-50 | `webview <guestInstanceId>` when the guest instance id is non-zero, otherwise `window <windowId>`; never empty. |
| Renderer.ClientIdsDistinct | src/electronRendererEnhancer.js:35-50 | Two client ids are equal exactly when the renderers are of the same kind and have the same id. |
| Renderer.Preload | src/electronRendererEnhancer.js:45-47 | Without exclusion the preload is the transformed browser state. With exclusion it is the transformed projection. It throws exactly when exclusion is set and the projection throws. |
| Renderer.InitialState | src/electronRendererEnhancer.js:38-48 | A missing browser store throws. A throwing preload throws the same error. |
| Renderer.BootstrapOutcome | src/electronRendererEnhancer.js:48 | The base is the given initial state when truthy, else the reducer's default. The reducer's error propagates. A `null` base with a non-empty preload throws. Otherwise the result is the merge. |
| Renderer.PreloadWins | src/electronRendererEnhancer.js:48 | For Date-free trees, every key path of a non-empty preload is in the initial state. With nothing to preload, the given state is kept. |
| Renderer.DefaultBootstrap | src/electronRendererEnhancer.js:20-48 | With the default options, the browser state is merged into the given state, and for Date-free trees it is fully contained in the result. |
| Renderer.AsReduced | src/electronRendererEnhancer.js:61-63 | With the update flag up and `data` present, both halves of `data` become their transformed values and nothing else in the action changes; otherwise the action is untouched. |
| Renderer.AsReducedCarriesApplied | src/electronRendererEnhancer.js:61-65 | The halves the rewritten action carries are exactly the ones the delta branch applies. |
| Renderer.AsReducedIdentity | src/electronRendererEnhancer.js:61-63 | With the identity state transformer the rewrite leaves the action as it was. |
| Renderer.DeltaReduce | src/electronRendererEnhancer.js:61-65 | A missing `data` throws. Otherwise the result is the delta application of the transformed halves. |
| Renderer.NormalReduce | src/electronRendererEnhancer.js:66-68 | The reducer's error propagates. Without exclusion the result is the reducer's. With exclusion the result is the reducer's state projected through the filter, and it is carved out of that state. |
| Renderer.Reduced | src/electronRendererEnhancer.js:58-70 | With the flag down this is the ordinary branch. With it up, an action without `data` throws a key read on `null`, and otherwise the result is the delta applied to the state, or the delta reducer's error. |
| Renderer.Attempted | src/electronRendererEnhancer.js:86-95 | A throwing pre-callback leaves the flag and the state alone; otherwise the flag is cleared and the state is the reduction's result, or the old state with the error when the reduction throws. Completion happens exactly when neither callback throws and the reduction succeeds; the post-callback is asked about the action as the reducer rewrote it. |
| Renderer.RendererStore.constructor | src/electronRendererEnhancer.js:50-83 | Client id, source (`sourceName \|\| clientId`), initial state, and the registration sent. |
| Renderer.RendererStore.Reduce | src/electronRendererEnhancer.js:58-70 | The state becomes what `parsedReducer` returns, or stays on a throw. The flag is down afterwards. |
| Renderer.RendererStore.DoDispatch | src/electronRendererEnhancer.js:86-95 | Flag, state and outcome are those of `Attempted`. `isDispatching` is false on every exit. The caller's action comes back as the reducer rewrote it, or untouched when the pre-callback throws. |
| Renderer.RendererStore.Dispatch | src/electronRendererEnhancer.js:109-124 | A falsy action goes to the underlying dispatch. Otherwise the action is stamped with this process's source, reduced first when synchronous, and forwarded with the client id. A throw skips forwarding and the listeners. When the reduction ran with the update flag up, the action forwarded and returned carries the transformed `data`. |
| Renderer.RendererStore.OnBroadcast | src/electronRendererEnhancer.js:100-107 | The replica's own echo is ignored when synchronous. Otherwise the flag is raised, the transfer is dispatched, and the listeners run if that completes. |
| Renderer.Applies | src/electronRendererEnhancer.js:102 | The echo rule: a broadcast is applied when the replica is asynchronous or another client caused it. |
| Renderer.Enhance | src/electronRendererEnhancer.js:29-83 | Either the bootstrap error, or a fresh valid store holding the bootstrap state with the registration sent. |
| Renderer.DeltaIsPatch | src/electronRendererEnhancer.js:61-65 | Without a transformer, applying a broadcast delta is patching by the diff it carries. |
| Renderer.WholeReplicaConverges | src/electronRendererEnhancer.js:100-107 | A replica interested in everything, with the identity state transformer, holding the browser's old state, holds the new state after applying the broadcast, when neither state holds a Date. |
| Renderer.RedeliveryHarmless | src/electronRendererEnhancer.js:61-65 | With the identity state transformer, a broadcast of the whole diff, projected through a `true` interest, applied again to the new state changes nothing. |
| Renderer.OwnEchoIgnored | src/electronRendererEnhancer.js:102 | When the browser broadcasts a forwarded action, a synchronous sender ignores every copy, and every other client applies its copy. |
| Renderer.StaleFlagAfterThrowingCallback | src/electronRendererEnhancer.js:59-60 | A pre-callback that throws on a broadcast leaves the flag raised, so the next local action without `data` throws. Reported only; the model keeps this behaviour. |
| Renderer.BoomStore | src/electronBrowserEnhancer.js:57-83 | A fresh browser store with one registered, active renderer `window 3`. |
| Renderer.OnlyRendererThree | src/electronBrowserEnhancer.js:109-134 | With one registered renderer the broadcast sends it exactly one transfer, its projection. |
| Renderer.BoomDifference | lib/utils/object-difference.js:46-47 | A new key is recorded in `updated` and nothing is deleted. |
| Renderer.Broadcasted | src/electronBrowserEnhancer.js:97-141 | The browser's own dispatch reaches renderer 3 with the delta `{n: 1}`, under `senderClientId \|\| currentSource`. |
| Renderer.StaleSenderSwallowsBroadcast | src/electronBrowserEnhancer.js:86-91 | After a forwarded action throws, the browser's next own broadcast names `window 3` as its origin, and that synchronous renderer drops it. |
| Renderer.ResetSenderDeliversBroadcast | src/electronBrowserEnhancer.js:86-91 | With the corrected handler, the same broadcast names `main_process`, and the renderer applies it. |

## Left out

- Electron's IPC, `remote`, `webContents.send`, JSON (de)serialisation and
  the `global` lookup are left out. Messages are appended to sequences, and a
  missing browser store is an input.
- `webContents.isDestroyed()` and `isCrashed()` are replaced by a set of
  dead ids passed to `Dispatch`.
- The listener scheduler (`getSubscribeFuncs`) is not part of this model.
  Calls to `callListeners` are only counted.
- Redux's `createStore` internals are left out: its `@@INIT` dispatch, its
  plain-object check on actions, and its reentrancy guard. The underlying
  dispatch is the reducer applied to the current state. A reducer that
  returns `undefined` is not modelled.
- User callbacks, reducers and state transformers are arbitrary total
  functions passed in. A callback is reduced to whether it throws for an
  action.
- The order of keys in JavaScript objects is not modelled. `filterObject`
  reports one error kind. When several keys of a `fillShape` sink throw, the
  malformed-leaf error is reported rather than whichever key comes first.
- Arrays are atomic values; string and array keys are treated as absent. A
  Date has no own keys but is an object to lodash `isObject` and empty to
  `isEmpty`. So the diff descends into an old Date, and the merge descends
  where a Date meets a Date or an object. The `+v` coercion in the Date
  comparison maps strings, arrays and objects to `NaN`.
- Function-valued interest shapes are kept as `Computed`. Electron's IPC
  would not carry them to the browser; that is not modelled.
- The compiled `lib/` copies of the enhancers are not modelled separately.
  Their behaviour is the `src/` one.
- `store.getJSONState` is left out: its only role, JSON transport, is left
  out.
- Sync.RoundTrip: stated for Date-free trees only. A number replaced by a
  Date at the same instant, or a Date replaced by `{}`, is not recorded by the
  diff (`Difference.NumberBecomesDate`, `Difference.DateBecomesEmpty`), and a changed Date meeting an older
  one is not applied by the merge (`Merge.ChangedDateKept`). In each case the
  replica keeps the old value; for the merge case this needs the replica's
  `stateTransformer` to turn the JSON strings back into Dates.
- Merge.IncomingSurvives: stated for Date-free trees only, for the same
  reason; `Merge.IntendedIncomingSurvives` holds for all trees.
- Renderer.PreloadWins: stated for Date-free trees only, for the same reason.
- Renderer.DefaultBootstrap: containment is stated for Date-free trees
  only, for the same reason.

## Findings

| source | as written | input that shows it | evidently intended | confidence | as-written member | corrected member |
|---|---|---|---|---|---|---|
| src/electronBrowserEnhancer.js:63-76 | The record is written first. Then whatever renderer `windowMap[window]` names is deactivated, even when that is the renderer being registered. | webContents 5, main contents of window 1, was deactivated and registers again while `windowMap[1] == 5` | Deactivate the previously mapped renderer only when it is a different one, so the re-registered renderer stays active | medium, not executed | Browser.ReRegisterAsWrittenDeactivatesItself | Browser.ReRegisterKeepsItselfActive |
| src/utils/object-merge.js:8-20 | A Date is a lodash object and is empty, so where a changed Date meets an older Date the merge descends and returns the older one | the replica's `stateTransformer` revives ISO strings as Dates, so it holds `{at: Date(1)}` and receives `updated = {at: Date(2)}` | The incoming Date replaces the old one, as the diff's instant comparison expects | medium, not executed | Merge.ChangedDateKept | Merge.IntendedIncomingSurvives |
| src/electronBrowserEnhancer.js:86-91 | `senderClientId` is set before `store.dispatch` and cleared after it, with no `finally`; when the dispatch throws it stays set | renderer `window 3` forwards an action whose reducer throws, then the browser dispatches its own action | Clear `senderClientId` on every exit, so the browser's own broadcasts carry `main_process` | medium, not executed | Renderer.StaleSenderSwallowsBroadcast | Renderer.ResetSenderDeliversBroadcast |
