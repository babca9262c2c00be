# Photo-mission store, cache and image locator

A model of the data core of a small photo-mission app. Missions (named
locations that are completed by taking a photo there) are kept as one list in
a single durable key-value cell under the key `@missions_data_v1`. Three
pieces are modelled:

- **Mission store** (`mission_store.dfy`, module `MissionStore`): the
  `Mission` record, the durable cell as a class `Storage` with one field
  `stored : Absent | Corrupt | Encoded(list)`, and `loadMissions`,
  `saveMissions`, `addMissionToStore`, `updateMissionInStore` and
  `deleteMissionFromStore` as methods on it. Each mutating method is a full
  load-rewrite-save cycle, and it returns the list it tried to save. The list
  rewrites (`map` and `filter` in the source) are the pure functions
  `Replaced` and `Removed`, with lemmas about them.
- **Mission cache** (`use_missions.dfy`, module `Missions`): the
  `useMissions` hook as a class `MissionCache` that owns a `Storage`. It holds
  the state cells `missions` and `isLoading`, and the operations
  `refreshMissions`, `addMission`, `completeMission` and `deleteMission`.
  Each operation calls the store and then replaces the cache with the store's
  result. `completeMission` builds the new record from the cached copy
  (`Find`, `Completed`) but applies it to a fresh load. The lemmas
  `CompletionAppliesToFreshLoad` and `CompletionOfVanishedMission` pin down
  that split.
- **Image locator** (`use_mission_image.dfy`, module `MissionImage`): the
  pure decision `Locate` from `(photoUri, assetId)` to one of `NoImage`,
  `Direct(uri)` or `Resolve(assetId)`, and the `imageUri` state cell as
  class `ImageState`, whose `OnInputs` method performs the hook's effect.

The environment becomes inputs:

- Whether the backend's read or write succeeds is a `readOk` / `writeOk`
  argument.
- The clock (`Date.now()`, called twice in `addMission`) is two arguments:
  the new mission's `id` and its `createdAt`. Nothing assumes ids are
  distinct.
- The media-library lookup's `localUri` is an `Option<string>` argument.

JSON encoding stays abstract: a saved list reads back as exactly that list,
and any text that does not parse is `Corrupt`. Coordinates are `real` values
that are only copied.

The invariant "`isCompleted` holds exactly when `photoUri` is present"
(`PhotoConsistent`) holds for missions written only through these
operations. Every `MissionCache` operation preserves `Consistent()`, which
covers both the cache and the cell. An absent or corrupt cell counts as
consistent.

`deleteMissionFromStore` removes every element with the given id, and
`updateMissionInStore` replaces every element with the given id.

`Missions.AddThenComplete` is a scenario: from an empty cell, adding a
mission and completing it leaves one completed mission carrying the photo.

## Model

| member | source | states |
|---|---|---|
| MissionStore.Storage.constructor | stores/missionStore.ts:15 | the store works on the one key `@missions_data_v1`, whose cell holds whatever the backend already has |
| MissionStore.Storage.Load | stores/missionStore.ts:26-34 | a missing value, an unparseable value and a failed read all give `[]`; a readable saved list is returned as it is; storage is not changed |
| MissionStore.Storage.Save | stores/missionStore.ts:17-24 | a successful write replaces the whole cell with the list; a failed write leaves the cell as it was and does not raise |
| MissionStore.SaveThenLoad | stores/missionStore.ts:17-34 | after a successful save, a load whose read succeeds returns exactly the saved list |
| MissionStore.FailedSaveKeepsLoad | stores/missionStore.ts:21-23 | after a failed save, a load sees the same list as before it |
| MissionStore.Storage.Add | stores/missionStore.ts:36-41 | returns the loaded list with `m` appended last (length + 1); over a missing or corrupt cell, or a failed read, it returns `[m]`, so unreadable data gets overwritten; the cell afterwards holds the returned list, or stays as it was if the write failed |
| MissionStore.Storage.Update | stores/missionStore.ts:43-50 | returns `Replaced(load, u)`, which has the loaded length; the cell afterwards holds exactly the returned list, or stays as it was if the write failed |
| MissionStore.Replaced | stores/missionStore.ts:45-47 | the `map` keeps the length of the list |
| MissionStore.ReplacedAt | stores/missionStore.ts:45-47 | at every position, an element with `u`'s id becomes `u` and every other element is kept, in place |
| MissionStore.ReplacedEveryMatch | stores/missionStore.ts:45-47 | every element with `u`'s id is replaced, not just the first one; the others are untouched |
| MissionStore.ReplacedNoMatch | stores/missionStore.ts:45-47 | when no element has `u`'s id, the list is unchanged |
| MissionStore.Storage.Delete | stores/missionStore.ts:53-58 | returns `Removed(load, id)`, in which no element has that id; the cell afterwards holds exactly the returned list, or stays as it was if the write failed |
| MissionStore.Removed | stores/missionStore.ts:55 | the `filter` never makes the list longer |
| MissionStore.RemovedMembers | stores/missionStore.ts:55 | a mission survives exactly when it was in the list and has another id |
| MissionStore.RemovedConcat | stores/missionStore.ts:55 | removal distributes over concatenation, so the survivors keep their relative order |
| MissionStore.RemovedNoMatch | stores/missionStore.ts:55 | when no element has that id, the list is unchanged |
| MissionStore.RemovedIdempotent | stores/missionStore.ts:55 | removing the same id twice gives the same list as removing it once |
| MissionStore.DeleteTwiceAsOnce | stores/missionStore.ts:53-58 | once a delete has been written, deleting the same id again leaves the cell as it is when the second delete's read succeeds |
| MissionStore.DeleteWithFailedReadLosesData | stores/missionStore.ts:30-32 | if the second delete's read fails, it saves `[]` and a mission of another id kept by the first delete is lost |
| MissionStore.LoadedConsistent | stores/missionStore.ts:26-34 | loading a consistent cell yields missions whose `isCompleted` matches the presence of `photoUri` |
| MissionStore.ReplacedConsistent | hooks/useMissions.ts:42-43 | replacing with a consistent record keeps a consistent list consistent |
| MissionStore.RemovedConsistent | hooks/useMissions.ts:48-50 | deleting keeps a consistent list consistent |
| Missions.Find | hooks/useMissions.ts:40 | a found mission is in the cache and has the id; nothing is found exactly when no cached mission has the id |
| Missions.FindIsFirst | hooks/useMissions.ts:40 | when several missions share the id, the first one is found |
| Missions.NewMission | hooks/useMissions.ts:26-34 | the new record has exactly the given name, caption, coordinates, id and creation time; it has `isCompleted == false` and no `photoUri` or `assetId` |
| Missions.Completed | hooks/useMissions.ts:42 | the record has `isCompleted == true` and the given `photoUri` and `assetId`; id, name, caption, coordinates and `createdAt` are those of the cached record |
| Missions.CompletionAppliesToFreshLoad | hooks/useMissions.ts:40-44 | the stored list has the fresh load's length; every freshly loaded element with the id becomes the record built from the cached copy, and every other element is the fresh load's own |
| Missions.CompletionOfVanishedMission | hooks/useMissions.ts:40-44 | if the cache still lists the id but the fresh load does not, the fresh load is stored unchanged |
| Missions.MissionCache.constructor | hooks/useMissions.ts:11-12 | the initial state is `missions == []` and `isLoading == true` |
| Missions.MissionCache.Refresh | hooks/useMissions.ts:14-19 | afterwards `missions` is what loading returned and `isLoading == false`; storage is untouched |
| Missions.MissionCache.AddMission | hooks/useMissions.ts:25-37 | the cache becomes the loaded list with the new record appended last, and the cell holds that list if the write succeeded; consistency is preserved |
| Missions.MissionCache.CompleteMission | hooks/useMissions.ts:39-46 | if the id is not cached, neither the cache nor storage changes; otherwise the cache becomes `Replaced(fresh load, Completed(cached record))`, the cell holds it if the write succeeded, and consistency is preserved |
| Missions.MissionCache.DeleteMission | hooks/useMissions.ts:48-51 | the cache is always replaced by the loaded list minus that id, and keeps no mission with that id; the cell holds that list if the write succeeded |
| MissionImage.Locate | hooks/useMissionImage.ts:9-38 | no image when `photoUri` is undefined or empty, or when it has the `ph://` prefix and `assetId` is missing or empty; the uri verbatim when it is non-empty without the prefix; resolution of exactly `assetId` otherwise; the three conditions are exhaustive and mutually exclusive |
| MissionImage.SchemeIsCaseSensitive | hooks/useMissionImage.ts:14 | the prefix test is exact: `PH://` is displayed directly, `ph://` with an asset id is resolved |
| MissionImage.ImageState.constructor | hooks/useMissionImage.ts:5 | `imageUri` starts as null |
| MissionImage.ImageState.OnInputs | hooks/useMissionImage.ts:7-39 | sets `imageUri` to null or to the uri itself for those outcomes; asks for a lookup of exactly that `assetId` when resolution is needed, takes a non-empty `localUri` from it, and leaves `imageUri` at its previous value when the lookup fails or gives none |

## Left out

- Async interleaving is not modelled. Each operation is atomic, so overlapping load-save cycles (last write wins) are not modelled. Neither are back-to-back un-awaited mutations reading a stale `missions`.
- React scheduling is not modelled. The mount effect that calls `refreshMissions` (hooks/useMissions.ts:21-23) is the caller's `Refresh` after construction. A resolution callback that arrives after the inputs changed is not modelled.
- JSON is abstract. A value that parses to something other than an array, such as `null` or `42`, is returned by `loadMissions` without a check. The model has no such value: its cell holds a list, an absent value or unparseable text.
- Non-finite coordinates (JSON writes NaN as `null`) are not modelled, because coordinates are only copied.
- `Date.now().toString()` gives the id, and a second `Date.now()` gives `createdAt`. Both are inputs; how the id is rendered in decimal is not modelled.
- Console logging of failures is left out; it is output only.
- The storage backend's other keys are left out; the store touches only `@missions_data_v1`.
- The name and location checks in the add-mission screen are UI code. The hook itself accepts any name, and so does `AddMission`.
- `MediaLibrary.getAssetInfoAsync` is an input. Its failure and a missing `localUri` both reach `OnInputs` as `None`.
- PhotoConsistent: a `completeMission` call with an empty `photoUri` stores `photoUri: ""`. The model counts that as present. A screen would treat it as falsy, that is, no image.
- The program has none of the following, so the model has none either: screens and components, sharing, location, distance and range gating, multi-photo lists, migration, photo caps, notes, reorder, import and export.
