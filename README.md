# json-sync in Dafny

A model of json-sync, a small library that mirrors a JSON-shaped state tree
from a *provider* to *receivers* by sending incremental change lists.

- **Provider.** It flattens its tree into a record from dotted paths to
  scalar leaves (`flatten`). It diffs that record against the last one it
  announced (`diff`), and sends the non-empty change lists through its
  `sendChanges` sink.
- **Receiver.** It patches its replica with each list it receives
  (`applyChanges`). It then calls every path listener whose watched path is a
  string prefix of a touched path. Each listener gets the value rebuilt at
  its path (`rebuild`).

## Modules

| Module | File | What it holds |
|---|---|---|
| `Types` | `types.dfy` | The values of `types.ts`. `Change` is a Delete or a Set, with its wire tag. `Flattened`, the flat record, is an insertion-ordered record: a duplicate-free key sequence plus a map. `Put` and `Remove` are its in-place updates. |
| `Strings` | `strings.dfy` | The JavaScript string operations the core uses: `startsWith`, `slice`, `split('.')[0]`, `parseInt` and the decimal rendering of an array index. |
| `Flattener` | `flatten.dfy` | `flatten`, with its recursive `dig` (a method with a loop) and the function it is proved against. |
| `Differ` | `diff.dfy` | `diff`, with its two loops. |
| `Patcher` | `patch.dfy` | `applyChanges` from `utils.ts`. |
| `Rebuilder` | `rebuild.dfy` | `rebuild`, kept with the code's raw string tests. |
| `RoundTrip` | `roundtrip.dfy` | The conditions under which `rebuild` inverts `flatten`. |
| `RebuildExamples` | `rebuild_examples.dfy` | Small records on which it does not. |
| `Provider` | `provider.dfy` | `makeJsonSyncProvider` as a class. |
| `Receiver` | `receiver.dfy` | `makeJsonSyncReceiver` as a class. |
| `SyncScenarios` | `scenarios.dfy` | The scenarios of the repository's tests, from the provider's diff to the receiver's calls. |

The provider and the receiver are classes whose fields are the closures'
mutable variables:
- **Provider:** `currentState` is `snapshot`. The `sendChanges` sink is
  `outbox`, one entry per call.
- **Receiver:** `currentState` is `state`. The listener `Set` is
  `listeners`, in insertion order; each listener's unsubscribe closure is
  its numeric handle. The callback invocations are `log`.

### Behaviours of the code that the model keeps

The model does what the code does, including these consequences of its raw
string tests and its guards:
- **Child keys.** The comment at `utils.ts:50` says the next step lists "all
  the direct children" of the path. The filter at `utils.ts:51-52` is a plain
  `startsWith(key)`, though. It keeps every key that merely begins with the
  path's characters, and it keeps duplicate segments (`utils.ts:53`):
  - in the record `{bazooka: 1}`, `rebuild("baz")` sees the segment `oka`
    (`SiblingPollutes`);
  - an array whose element is an object with two keys lists that element
    twice (`ArrayElementRepeated`).
- **Array indices.** The array branch (`utils.ts:78`) keeps the segments in
  key order and rebuilds each at its *parsed* number. So the key `a.01` is
  looked up as `a.1` (`LeadingZeroLost`).
- **The root path.** At the empty root path, `slice(key.length + 1)`
  (`utils.ts:53`) drops the first character of every key
  (`RootLosesFirstCharacter`). So `rebuild("", flatten(d))` does not give
  back `d` even for `{foo: "bar"}` (`RootRoundTripFails`). The round trip is
  proved below the root instead (`RebuildFlattened`, `FlattenRebuildField`).
- **Before `setState`.** Only `applyChanges` (`mod.ts:73`) and `getValue`
  (`mod.ts:94`) throw while there is no state. `watchPath` (`mod.ts:81-91`)
  registers a listener at any time.

## Model

| member | source | states |
|---|---|---|
| `Types.Change.Tag` | types.ts:5-19 | A change's tag is 'D' exactly for a Delete and 'S' exactly for a Set |
| `Types.Paths` | mod.ts:76 | The touched paths: one per change, in list order |
| `Types.Put` | utils.ts:84 | `record[k] = v`: the entries gain or overwrite `k`; an existing key keeps its position in the order, a new key is appended |
| `Types.Remove` | utils.ts:83 | `delete record[k]`: `k` leaves both the entries and the order, and nothing else does; a missing key leaves the record as it was |
| `Strings.Drop` | utils.ts:53 | `slice(n)`: the suffix from `n`, or empty once `n` reaches the end |
| `Strings.StartsWith` | utils.ts:52 | `startsWith`: the prefix is no longer than the string and equals its first characters, with no regard for dot boundaries. `RoundTrip.NoPollution` and `Receiver.FiresIff` state what follows from it |
| `Strings.Join` | utils.ts:6-10 | `join`: the bare child key at the empty root, `root.child` below it. `Flattener.ChildPos` and `Strings.ChildSegmentOfJoin` state what follows from it |
| `Strings.ChildSegment` | utils.ts:53 | `slice(key.length + 1)` followed by `split('.')[0]`, built from `Drop` and `FirstSegment`, whose contracts state those two steps. `ChildSegmentOfJoin` shows it recovers a child key from a joined path |
| `Strings.FirstSegment` | utils.ts:53 | `split('.')[0]`: a dot-free prefix of the string, followed by a dot or by the end |
| `Strings.ParseInt` | utils.ts:63-64 | The segment parses as a number (is not NaN) exactly when it starts with a decimal digit |
| `Strings.NatToString` | utils.ts:78 | An index renders as a non-empty string of digits without a dot |
| `Strings.ParseNatToString` | utils.ts:78 | Parsing a rendered index gives back the index |
| `Strings.ChildSegmentOfJoin` | utils.ts:53 | The child segment read off `key.child…` is `child` when `child` has no dot |
| `Flattener.Dig` | utils.ts:12-20 | `dig` writes into the record exactly the entries of its subtree, in walk order, or returns the first unsupported-type error |
| `Flattener.Leaves` | utils.ts:12-20 | The entries `dig` writes, in writing order, or its first error. `Dig` is proved against it, and `LeavesSound`, `LeavesComplete` and `LeavesErrorSound` state what it holds |
| `Flattener.FlattenOf` | utils.ts:3-25 | The result of `flatten`. `Flatten` is proved against it, and `FlattenKeys` and `FlattenFails` characterise it |
| `Flattener.Flatten` | utils.ts:3-25 | `flatten` is `dig` from the empty root path into an empty record |
| `Flattener.ChildPos` | utils.ts:6-10 | A child's path is the parent's path joined with the child key: the bare key at the root, `parent.child` below it |
| `Flattener.ChildLeavesErrorPersists` | utils.ts:18-19 | Once one child throws, the whole walk throws that error |
| `Flattener.LeavesSound` | utils.ts:13-18 | Every entry written is a scalar leaf of the tree, null included, under that leaf's path |
| `Flattener.LeavesComplete` | utils.ts:13-18 | Every scalar leaf of the tree is written under its path |
| `Flattener.LeavesErrorSound` | utils.ts:19 | A thrown error names the path and the kind of an unsupported node of the tree |
| `Flattener.UnsupportedFails` | utils.ts:19 | A tree with an unsupported node anywhere cannot be flattened |
| `Flattener.PutAllKeys` | utils.ts:15-16 | After writing entries, a key is stored exactly when it was already stored or some entry wrote it |
| `Flattener.PutAllLastWins` | utils.ts:15-16 | The value stored under a path is the one its last write gave it |
| `Flattener.FlattenKeys` | utils.ts:3-25 | A successful flatten stores exactly the paths of the scalar leaves; empty containers and `undefined` contribute nothing |
| `Flattener.FlattenFails` | utils.ts:3-25 | Flatten fails exactly when some node of the tree is of an unsupported kind |
| `Patcher.ApplyChanges` | utils.ts:81-86 | The loop applies the changes one at a time, first to last |
| `Patcher.Patched` | utils.ts:81-86 | The record after applying the changes first to last. `ApplyChanges` is proved against it, and `PatchedFrame`, `PatchedLastWins` and `PatchedAppend` state what it does |
| `Patcher.PatchedAppend` | utils.ts:82-85 | Applying two lists in turn is applying their concatenation |
| `Patcher.PatchedFrame` | utils.ts:81-86 | A key no change names keeps its presence and its value |
| `Patcher.PatchedLastWins` | utils.ts:83-84 | The last change naming a path decides it: absent after a Delete (whether or not it was there), holding the value after a Set |
| `Patcher.PatchedTwice` | mod.ts:38 | Applying a list a second time leaves the entries as they were |
| `Patcher.PatchedTwiceDistinct` | mod.ts:38 | A list naming no path twice, applied a second time, leaves the record exactly as it was, key order included |
| `Patcher.PatchedTwiceReorders` | mod.ts:38 | From the keys `[y]`, the list `[x := 1, delete y, y := 2, z := 3]` gives the keys `[x, y, z]` applied once and `[x, z, y]` applied twice |
| `Differ.Diff` | utils.ts:27-44 | The two loops push, in key order, the Sets of the first loop and then the Deletes of the second |
| `Differ.DiffOf` | utils.ts:27-44 | The Sets of the first loop followed by the Deletes of the second. `Diff` is proved against it, and `DiffMembers`, `DiffPathsDistinct`, `DiffEmptyIff` and `PatchDiff` characterise it |
| `Differ.SetChangesMembers` | utils.ts:31-36 | The first loop sets exactly the keys of `updated` that are new or changed, to their updated value |
| `Differ.DeleteChangesMembers` | utils.ts:39-41 | The second loop deletes exactly the keys of `base` that `updated` lacks |
| `Differ.DiffMembers` | utils.ts:27-44 | A change is in the diff exactly when it sets a new or changed key to its updated value, or deletes a key that `updated` lacks |
| `Differ.SetsBeforeDeletes` | utils.ts:27-44 | Every Set comes before every Delete |
| `Differ.SetChangesPaths` | utils.ts:31-36 | The first loop names each path at most once |
| `Differ.DeleteChangesPaths` | utils.ts:39-41 | The second loop names each path at most once |
| `Differ.DiffPathsDistinct` | utils.ts:27-44 | No path is named twice in a diff; in particular none is both set and deleted |
| `Differ.DiffEmptyIff` | utils.ts:27-44 | The diff is empty exactly when the two records hold the same entries |
| `Differ.DiffSelf` | utils.ts:27-44 | A record diffed with itself gives no change |
| `Differ.PatchDiff` | utils.ts:27-44 | Patching `base` with `diff(base, updated)` gives the entries of `updated` |
| `Differ.DiffOneValue` | utils.ts:31-41 | Two records that differ only in the value stored under one key give exactly one change: the Set of that key to its new value |
| `Differ.DiffRemoved` | utils.ts:31-41 | When `updated` is `base` with some keys removed, the diff holds exactly one Delete per removed key and nothing else |
| `Differ.DiffRemovedTwo` | utils.ts:39-41 | Removing two distinct keys gives exactly their two Deletes, in some order, and no other change |
| `Differ.ChangeCount` | utils.ts:27-44 | A change list that names no path twice, as every diff does, holds no change twice |
| `Rebuilder.Matching` | utils.ts:51-52 | The candidate keys are exactly the keys that start with the path as a plain string. `RoundTrip.MatchingAppend` shows they keep key order |
| `RoundTrip.MatchingAppend` | utils.ts:51-52 | Filtering a concatenation of key lists is concatenating the filtered lists, so the candidates keep key order |
| `Rebuilder.Segments` | utils.ts:53 | One child segment per candidate key, in order |
| `Rebuilder.Rebuild` | utils.ts:46-79 | `rebuild`, with its three branches. `RebuildKind`, `RebuildStored`, `RebuildMissing`, `RebuildArray` and `RebuildObject` state what each gives |
| `Rebuilder.RebuildFields` | utils.ts:69-73 | The object loop, assigning the rebuilt value of each segment in turn. `RebuildFieldsShape` states its result |
| `Rebuilder.Assign` | utils.ts:71 | `obj[k] = v`: the property names gain `k` at the end unless it is already there, the result holds `(k, v)`, and every other property keeps its place and value |
| `Rebuilder.RebuildItems` | utils.ts:78 | The array branch has one element per child segment |
| `Rebuilder.AssignSame` | utils.ts:71 | Assigning a property again with an equal value leaves the object unchanged |
| `Rebuilder.AssignNew` | utils.ts:71 | Assigning a new property appends it |
| `Rebuilder.RebuildStored` | utils.ts:48 | A stored entry, null included, is returned as it is |
| `Rebuilder.RebuildMissing` | utils.ts:59 | A path that no key starts with rebuilds as an empty array |
| `Rebuilder.RebuildArray` | utils.ts:63-78 | When every child segment parses, the result is an array: one element per candidate key, in key order, each rebuilt at the parsed number |
| `Rebuilder.RebuildItemsAt` | utils.ts:78 | The `i`-th element is rebuilt at `path.` followed by the rendered number of the `i`-th segment |
| `Rebuilder.RebuildObject` | utils.ts:65-75 | Otherwise the result is an object with one property per distinct segment, in order of first occurrence, each rebuilt at `path.segment` |
| `Rebuilder.RebuildFieldsShape` | utils.ts:69-73 | Assigning the segments in turn gives the distinct segments as property names, each holding the value rebuilt below it |
| `Rebuilder.RebuildKind` | utils.ts:46-79 | `rebuild` returns a scalar exactly when the path is a key of the record, and then the stored value. Otherwise it returns an array or an object, never `undefined`, and an object has at least one property |
| `Rebuilder.RebuildOneField` | utils.ts:65-73 | A path that is not stored and has a single, non-numeric child segment rebuilds as an object with just that property, holding the value rebuilt below it |
| `RoundTrip.PathNotStored` | utils.ts:48 | A path whose candidate keys all lie strictly below it is not stored itself |
| `RoundTrip.NoPollution` | utils.ts:52 | A key at or below the sibling path `cj` does not start with the sibling path `ci` when `ci` is dot-free and not a prefix of `cj` |
| `RoundTrip.CanonicalLeaves` | utils.ts:12-20 | A subtree of the covered shape flattens without error and writes at least one entry |
| `RoundTrip.LeafKeysDistinct` | utils.ts:6-18 | Below a non-root path the leaves of such a subtree have distinct paths |
| `RoundTrip.ObjectKeysDistinct` | utils.ts:6-18 | An object with dot-free, prefix-free keys flattens to distinct paths |
| `RoundTrip.RebuildFlattened` | utils.ts:46-79 | At a non-root path, rebuilding gives back a subtree of the covered shape, provided the keys starting with the path are exactly its leaf paths, in flattening order, with its values |
| `RoundTrip.RebuildFlattenedArray` | utils.ts:77-78 | The same for an array of scalars |
| `RoundTrip.RebuildFlattenedObject` | utils.ts:65-75 | The same for an object whose properties rebuild correctly |
| `RoundTrip.FlattenRebuildField` | utils.ts:3-79 | For an object with dot-free, prefix-free keys and covered children, rebuilding at a non-empty top-level key of its flattening gives back that child |
| `RebuildExamples.FlattenFooBar` | utils.ts:3-25 | `{foo: "bar"}` flattens to the record `{foo: "bar"}` |
| `RebuildExamples.RootLosesFirstCharacter` | utils.ts:53 | Rebuilding that record at the root gives `{oo: []}` |
| `RebuildExamples.RootRoundTripFails` | utils.ts:46-79 | So at the root, rebuilding a flattening does not give back the tree |
| `RebuildExamples.SiblingPollutes` | utils.ts:52 | In the record `{bazooka: 1}`, rebuilding at `baz` gives `{oka: []}` and not an empty array |
| `RebuildExamples.ArrayElementRepeated` | utils.ts:78 | An array holding one object with two keys rebuilds with that element twice |
| `RebuildExamples.LeadingZeroLost` | utils.ts:78 | Under the key `a.01`, rebuilding at `a` looks up `a.1` and gives `[[]]` |
| `Provider.MakeJsonSyncProvider` | mod.ts:20-47 | The factory throws the flatten error, or yields a new provider whose state is `flatten(data)`, with nothing sent yet |
| `Provider.JsonSyncProvider.constructor` | mod.ts:20-23 | The initial snapshot is the flattening of the source |
| `Provider.JsonSyncProvider.Sync` | mod.ts:25-33 | `sync` throws the flatten error and changes nothing, or compares with the snapshot. If the diff is non-empty, it adopts the new record and sends exactly that diff; otherwise it changes nothing. Either way the snapshot ends with the tree's current entries, and patching the old snapshot with the sent list gives them |
| `Provider.JsonSyncProvider.SyncChanges` | mod.ts:35-40 | An empty list is ignored; otherwise the snapshot is patched with it and the identical list is sent |
| `Provider.JsonSyncProvider.GetState` | mod.ts:42-44 | `getState` returns the snapshot |
| `Receiver.FirstMatch` | mod.ts:83 | `find` gives a touched path that starts with the watched path, or none exists |
| `Receiver.Fires` | mod.ts:82-85 | The listener's guard: `find` returns a touched path and that path is truthy, so not the empty string. `FiresIff` and `RootFires` state when it holds |
| `Receiver.FiresIff` | mod.ts:83 | A listener on a non-empty path fires exactly when some touched path starts with it |
| `Receiver.RootFires` | mod.ts:83 | A listener on the empty path fires exactly when the first touched path is not empty |
| `Receiver.Unlisted` | mod.ts:90 | `listeners.delete`: the listeners stay, except the one with that handle |
| `Receiver.Deliver` | mod.ts:78-86 | The notify loop calls the listeners in registration order, each that fires with the value rebuilt at its path |
| `Receiver.Notifications` | mod.ts:78-86 | The calls of one `applyChanges`, listener by listener: at most one per listener. `NotificationMembers` and `NotifiedAtMostOnce` characterise them |
| `Receiver.OneListener` | mod.ts:82-85 | A lone listener is called once, with the value rebuilt at its path, when it fires, and not at all otherwise |
| `Receiver.OneListenerCount` | mod.ts:82-85 | So a lone listener gets one call when it fires and none otherwise |
| `Receiver.TwoListeners` | mod.ts:78 | Two listeners are called in the order they were added |
| `Receiver.NotificationMembers` | mod.ts:78-86 | A call is made exactly for each listener that fires, with that listener's handle and the value rebuilt at its path |
| `Receiver.NotifiedAtMostOnce` | mod.ts:66-78 | Listeners with distinct handles are each called at most once |
| `Receiver.NotifiedRegistered` | mod.ts:78 | Only listeners in the set are called |
| `Receiver.IdsAppend` | mod.ts:88 | Adding a listener with a fresh handle keeps the handles distinct |
| `Receiver.UnlistedDistinct` | mod.ts:90 | Removing a listener keeps the handles distinct |
| `Receiver.UnlistedSilent` | mod.ts:90 | A removed listener is never called |
| `Receiver.UnlistedOthersUnaffected` | mod.ts:90 | Removing one listener leaves every other listener's calls as they were |
| `Receiver.RegistryWatch` | mod.ts:88 | Registering under the next handle keeps handles distinct, issued and uncalled |
| `Receiver.RegistryUnsubscribe` | mod.ts:90 | Calling an issued handle keeps that bookkeeping, with the handle now among the called ones |
| `Receiver.JsonSyncReceiver.constructor` | mod.ts:62-66 | A new receiver has no state, no listeners and no calls |
| `Receiver.JsonSyncReceiver.SetState` | mod.ts:68-70 | `setState` installs the record and changes nothing else |
| `Receiver.JsonSyncReceiver.ApplyChanges` | mod.ts:72-79 | Before `setState`: an error, and nothing changes. Otherwise the replica is patched with the list, and the calls are exactly those of the current listeners for the touched paths, on the patched replica. No removed handle is called |
| `Receiver.JsonSyncReceiver.WatchPath` | mod.ts:81-91 | `watchPath` appends a listener under a fresh handle and returns that handle |
| `Receiver.JsonSyncReceiver.Unsubscribe` | mod.ts:90 | Calling a handle removes its listener. It reports whether the listener was still registered, and the handle is never reused |
| `Receiver.JsonSyncReceiver.GetValue` | mod.ts:93-97 | Before `setState`: an error. Otherwise the value rebuilt at the path from the replica |
| `Receiver.BazScenario` | test.ts:110-119 | A change to `baz.jack` fires both a `baz` and a `baz.jack` listener but not a `foo` listener; a `bazooka` change fires `baz` too |
| `SyncScenarios.BazWatcherSees` | test.ts:137-149 | A `baz` watcher over `{foo: "bar", baz: items}` sees exactly the array `items` |
| `SyncScenarios.ArrayScenarioFires` | test.ts:151-156 | The Set of `baz.0`, and the Deletes of `baz.2` and `baz.3`, each fire the `baz` watcher |
| `SyncScenarios.ArrayScenarioFirstCall` | test.ts:141-144 | After `baz[0] = 'bill'` the watcher sees `bill` at index 0 |
| `SyncScenarios.ArrayScenarioSecondCall` | test.ts:146-148 | After the two pops it sees `['bill', 'jack']` |
| `SyncScenarios.ReplaceOne` | mod.ts:25-33 | After an edit that replaces one leaf's value, `sync` sends exactly the one Set of that leaf, and patching with it gives the provider's new entries |
| `SyncScenarios.PopTwo` | test.ts:154-156 | The two pops delete `baz.2` and `baz.3`: the diff is exactly those two Deletes, and they fire the `baz` watcher |
| `SyncScenarios.ArrayScenarioCalledTwice` | test.ts:123-159 | The first sync sends only the Set of `baz.0` to `bill`, the second only the Deletes of `baz.2` and `baz.3`, and the lone `baz` watcher is called once per sync: twice in all |
| `SyncScenarios.ValueScenario` | test.ts:6-33 | After `state.baz.jason = 'Hi'` the sync sends the one Set of `baz.jason`, and the `baz.jason` watcher is called once, with `Hi` |
| `SyncScenarios.TwoWatchersScenario` | test.ts:36-63 | With watchers on `foo` and `baz.jack`, the first sync calls only the `foo` watcher and the second only the `baz.jack` watcher |
| `SyncScenarios.ObjectWatchersScenario` | test.ts:95-121 | After `state.baz.jack = false` both the `baz` watcher and the `baz.jack` watcher are called, in the order they were added, each with the value rebuilt at its path |

## Left out

- Numbers are unbounded integers. Floating point, and `NaN !== NaN` making
  `diff` set a NaN leaf on every sync, are not modelled.
- `parseInt` is modelled as reading the leading run of decimal digits. Its
  leading whitespace, signs and `0x` prefixes are not modelled.
- The double-precision result of `parseInt` is not modelled either. A
  segment of more than 15 digits can lose precision. One of 22 or more
  digits renders in exponent notation, such as `1e+21`, in
  `${key}.${childKey}` (`utils.ts:78`). `NatToString` renders every digit.
- JavaScript objects enumerate integer-like keys first, in ascending order.
  The model enumerates every record and object in insertion order, and it
  visits array indices in ascending order.
- Inherited and prototype properties are not modelled: `for…in` seeing them,
  and lookups such as `flattened["constructor"]`.
- The runtime `typeof` probing is replaced by an `Unsupported` node that
  carries the kind's name.
- Reference aliasing is not modelled. `getState` returns, and `setState`
  stores, the record as a value. In the code they can share one object, as
  the tests wire them (`test.ts:14,18`). A list relayed by `syncChanges`
  (`mod.ts:35-40`) is then applied to it twice.
  - The sharing lasts only until the provider's first non-empty `sync`,
    which rebinds `currentState` to a fresh record (`mod.ts:30`).
  - `Patcher.PatchedTwice` shows that a second application keeps the
    entries.
  - `Patcher.PatchedTwiceDistinct` shows that a list naming no path twice,
    as every diff is, leaves the record exactly as it was, key order
    included.
  - A list that names a path twice can reorder the keys, and with them the
    arrays and objects `rebuild` gives (`Patcher.PatchedTwiceReorders`).
    From the keys `[y]`, the list `[x := 1, delete y, y := 2, z := 3]` gives
    `[x, y, z]` once and `[x, z, y]` twice. So on the record `{p.1}` the list
    `[p.0 := 0, delete p.1, p.1 := 1, p.2 := 2]` makes the shared record
    rebuild at `p` as `[0, 2, 1]`. The model's replica, patched once, gives
    `[0, 1, 2]`.
- The transport behind `sendChanges` is modelled as the provider's outbox.
- Listener callbacks are modelled as the receiver's log. So is their effect
  on the rest of the system, including reentrant calls from a callback into
  the receiver.
- The provider's live tree is its field `data`, which callers reassign to
  model changing the shared tree in place.
- `Receiver.JsonSyncReceiver.Unsubscribe`: requires a handle that was
  issued, since only `watchPath` can create one.
- `Provider.JsonSyncProvider.Sync`: states the new snapshot's entries, not
  its key order, when the diff was empty and the snapshot was kept.
- `RoundTrip.RebuildFlattened`: proved only for subtrees below a non-root
  path. They must contain only dot-free, prefix-free keys, objects with some
  non-numeric key, and non-empty arrays of scalars. Outside those shapes the
  code does not invert `flatten`, as the `RebuildExamples` members show.
- `RoundTrip.FlattenRebuildField`: covers top-level objects only; the
  lemma needs dot-free, prefix-free top-level keys. A root array breaks
  that once it has eleven elements: its index key `1` is a prefix of `10`,
  so `rebuild("1", …)` also picks up the keys of element 10.
- `SyncScenarios.ArrayScenarioFirstCall` and
  `SyncScenarios.ArrayScenarioSecondCall` rebuild from a fresh flattening of
  the tree, not from the receiver's patched replica. Patching gives the same
  entries (`Differ.PatchDiff`), but the key order of the replica is not
  derived.
- `test.ts` is a test harness; its scenarios appear only as lemmas.
- The `SyncScenarios` lemmas from `ReplaceOne` on take the provider's records
  before and after each test's edit as parameters, related by that edit.
  They are not derived by flattening the tests' concrete trees.
- The unsubscribe test (`test.ts:66-93`) has no scenario lemma of its own;
  `Receiver.UnlistedSilent` and `Receiver.JsonSyncReceiver.Unsubscribe` state
  what it checks.
- Strings are sequences of Unicode characters. JavaScript's `length` and
  `slice` (`utils.ts:53`) count UTF-16 code units, so the code cuts keys
  holding characters outside the Basic Multilingual Plane at other places.
- `provider.ts` and `receiver.ts`, which `test.ts` imports, are not part of
  this model. The same-named factories of `mod.ts` are modelled.
