# ToothFairy device panel and gitignore picker: a Dafny model

This project models the decision logic of two Raycast extensions:

- **ToothFairy device panel.** This is the provider in `extensions/toothfairy/src/api.tsx`. It fetches the paired devices from the ToothFairy application over a scripting bridge. It also keeps a table of pending connection requests, keyed by device id. Three kinds of event change that table:
  - a connect or disconnect request that the bridge reports as a change adds an entry;
  - the reconciliation pass that runs on every render marks a device `connecting` when it still shows its pre-request state, and otherwise deletes its entry;
  - a request's timer firing deletes whatever entry is under its id.

  On top of this, `extensions/toothfairy/src/index.tsx` decides three things: which section each device is listed in, which action it offers, and what its list item shows.
- **Gitignore template picker.** This is `extensions/gitignore/src/gitignore.tsx`. It splits the catalog by the selection, chooses the header item, and gives each template's item its actions.

Files:

- `wrappers.dfy`: `Option`, which stands for `null`/`undefined`.
- `seqs.dfy`: `Array.prototype.filter`, as `Filter`. It has two lemmas:
  - filtering preserves order (`FilterIsSubsequence`);
  - filtering by a predicate and by its negation splits the input (`FilterComplement`).

  It also has `String.prototype.slice`, with JavaScript's clamping of negative and out-of-range bounds.
- `toothfairy_types.dfy`: the `Device` record of `extensions/toothfairy/src/types.ts`, plus `BridgeDevice`, which is the part of it the bridge reports.
- `toothfairy_api.dfy`: the provider.
  - `getDevices` is `GetDevices`.
  - The application behind the bridge is the class `Bridge`: a list of devices and whether the application is running. Its connect script is the method `SetConnected`, specified by `Reply` and `AfterSet`.
  - `ToothFairyProvider` is the class `Provider`. Its fields are `devices`, `requests` and `isLoading`, plus the armed timers: a map from timer handle to the id its closure deletes. Its methods are `Refresh`, `Reconcile` (the render-time loop), `Connect` and `Timeout`.
  - `Provider.Valid()` states that every pending request's own timer is still armed and points back at its id. Every method preserves it, so each pending request has a timer that will delete it.
- `toothfairy_view.dfy`: the `Command` sections, `ConnectionActions`, `DeviceItem`, and the hex-payload slice and icon effect.
- `gitignore.dfy`: the `Gitignore` and `GitignoreList` view decisions.

Modelling choices:

- Timers are explicit `Timeout(handle)` events. Each successful connect arms a new handle.
- When it fires, a timer's closure deletes the entry under its id, whichever request that entry belongs to. This matches `extensions/toothfairy/src/api.tsx:99-103`. A stale timer can therefore delete a newer request for the same device, and `StaleTimeoutScenario` exhibits this. A timer whose request was already confirmed changes nothing when it fires, and `EarlyConfirmedTimeoutScenario` exhibits that.
- The reconciliation pass reads the table as the render saw it. Its deletions go through functional updates, so they land on the table afterwards. The model applies them together at the end of the pass.
- `byId` is taken to find the first device with the id. A missing id makes the script throw, and so does any script run while the application is not running (`Bridge.running` false). The model represents a throwing connect script as the reply `Threw`: the provider records nothing and does not refresh, which is what the unhandled rejection leaves.
- A throwing fetch script makes `refresh` reject before `setDevices` and `setIsLoading`, so `Provider.Refresh` leaves the list and the loading flag as they were when the application is not running.
- The connect script sets the application's connection bit at once. Anything else the application does to its devices, such as a connection that takes time or fails, is modelled by the environment assigning `Bridge.devices` between events.
- In `Gitignore`, both sections are always rendered. `{selected && ...}` tests an array, which is always truthy.

Two behaviours of the code worth knowing:

- **Timers at teardown.** The teardown closure at `extensions/toothfairy/src/api.tsx:116-121` reads the first render's empty table, so it clears no request timers.
- **Which request a timeout removes.** A timer removes whatever request is under its id when it fires, not necessarily the one that armed it.

## Model

| member | source | states |
|---|---|---|
| ToothFairyApi.FromBridge | extensions/toothfairy/src/api.tsx:17-27 | a fetched device is not connecting, and all its other fields are the bridge's |
| ToothFairyApi.GetDevices | extensions/toothfairy/src/api.tsx:13-30 | a fetch gives one device per application device, in the same order, each copied from the bridge with `connecting` false |
| ToothFairyApi.IndexOfId | extensions/toothfairy/src/api.tsx:82 | the lookup finds the first device with the id, or reports that no device has it |
| ToothFairyApi.SetChangesOnlyThatDevice | extensions/toothfairy/src/api.tsx:83-88 | a request for the current state changes nothing; a change means the device was in state `!connect`, and only its connection bit becomes `connect` |
| ToothFairyApi.RepeatedSetIsUnchanged | extensions/toothfairy/src/api.tsx:83-87 | repeating a request the bridge just carried out answers "unchanged" and leaves the application alone |
| ToothFairyApi.Reply | extensions/toothfairy/src/api.tsx:80-89 | on a running application the script throws if and only if no device has the id; otherwise it answers "changed" if and only if the device found is in a state other than the requested one |
| ToothFairyApi.AfterSet | extensions/toothfairy/src/api.tsx:82-87 | the script changes at most one device, one with the requested id, and only its connection bit, to the requested value |
| ToothFairyApi.Bridge.SetConnected | extensions/toothfairy/src/api.tsx:80-89 | the connect script's reply and the application's new device list; every script throws while the application is not running, and then nothing changes |
| ToothFairyApi.Without | extensions/toothfairy/src/api.tsx:70 | deleting by destructuring removes exactly key `id` and keeps every other entry; it is a no-op when the key is absent |
| ToothFairyApi.WithRequest | extensions/toothfairy/src/api.tsx:94-97 | the spread insert binds `id` to the new request, replaces any old one, and keeps every other entry |
| ToothFairyApi.MarkConnecting | extensions/toothfairy/src/api.tsx:62-66 | the pass keeps the devices and their order, changes nothing but `connecting`, and a device is connecting afterwards if and only if it already was or it waits on a request |
| ToothFairyApi.Reconciled | extensions/toothfairy/src/api.tsx:62-75 | the pass only removes entries and never changes one; an entry goes if and only if a listed device with its id is confirmed |
| ToothFairyApi.ReconcileKeepsWaiting | extensions/toothfairy/src/api.tsx:63-66 | a device whose state still equals `previous` is marked connecting, and with unique ids its request is kept unchanged |
| ToothFairyApi.ReconcileRemovesConfirmed | extensions/toothfairy/src/api.tsx:67-72 | a device whose state differs from `previous` loses its request and is not marked; if it is the only such device, the new table is the old one without exactly its id |
| ToothFairyApi.ReconcileOnlyRemovesConfirmed | extensions/toothfairy/src/api.tsx:62-75 | the pass removes an entry if and only if a listed device with that id is confirmed; kept entries keep their values; entries of unlisted ids all survive |
| ToothFairyApi.ReconcileLeavesOthers | extensions/toothfairy/src/api.tsx:62-63 | devices without a request are untouched, and the pass changes nothing but the `connecting` flag |
| ToothFairyApi.Provider.constructor | extensions/toothfairy/src/api.tsx:52-54 | the provider starts with no devices, no requests, and loading set |
| ToothFairyApi.Provider.Refresh | extensions/toothfairy/src/api.tsx:56-60 | a successful fetch replaces the device list wholesale and sets `isLoading` to false; a throwing fetch leaves both as they were; the table is unchanged either way |
| ToothFairyApi.Provider.Reconcile | extensions/toothfairy/src/api.tsx:62-75 | the loop leaves the devices as `MarkConnecting` and the table as `Reconciled` of the old state, and keeps the timer invariant |
| ToothFairyApi.Provider.Connect | extensions/toothfairy/src/api.tsx:77-109 | on a reported change, the table gains `id ↦ previous = !connect` (replacing any entry), a timer for `id` is armed, and the list is refreshed; otherwise nothing in the provider changes |
| ToothFairyApi.Provider.Timeout | extensions/toothfairy/src/api.tsx:98-104 | a firing timer removes only the key it closes over, whatever entry is there, and disarms itself |
| ToothFairyApi.StaleTimeoutScenario | extensions/toothfairy/src/api.tsx:94-104 | an early-confirmed request's timer deletes a later request for the same device |
| ToothFairyApi.EarlyConfirmedTimeoutScenario | extensions/toothfairy/src/api.tsx:62-104 | after reconciliation deletes a request, its timer fires as a no-op |
| Seqs.Filter | extensions/toothfairy/src/index.tsx:28-29 | the result holds only input elements that pass the test, and holds every input element that passes it; `FilterIsSubsequence` and `FilterComplement` add order and multiplicity |
| Seqs.Slice | extensions/toothfairy/src/index.tsx:55 | `slice` gives the contiguous run of the input from the clamped start bound to the clamped end bound, and is empty when the bounds cross |
| ToothFairyView.ConnectedSection | extensions/toothfairy/src/index.tsx:28 | the "Connected" section holds exactly the connected devices of the list |
| ToothFairyView.DisconnectedSection | extensions/toothfairy/src/index.tsx:29 | the "Disconnected" section holds exactly the disconnected devices of the list |
| ToothFairyView.SectionsPartition | extensions/toothfairy/src/index.tsx:28-42 | every device is in exactly one section, and each section keeps list order |
| ToothFairyView.ConnectionActions | extensions/toothfairy/src/index.tsx:83-108 | no action while connecting; otherwise exactly one action, for the device's own id, requesting the opposite state, titled "Connect" or "Disconnect" accordingly |
| ToothFairyView.OfferedActionChangesState | extensions/toothfairy/src/index.tsx:86-104 | when the bridge still shows the listed state, the offered action is answered with a change, and the recorded `previous` is the listed state |
| ToothFairyView.NoActionMeansWaiting | extensions/toothfairy/src/index.tsx:86 | after a fetch and reconciliation, a device offers no action if and only if it has a request and still shows the state recorded before it |
| ToothFairyView.HexPayload | extensions/toothfairy/src/index.tsx:55 | the payload is `iconData` without its first 8 and last 2 characters, and is empty when `iconData` is shorter than 10 |
| ToothFairyView.IconAfterEffect | extensions/toothfairy/src/index.tsx:48-60 | null image data gives the empty icon; a decoded image is used, an empty one becomes the spinner icon; a rejected decode leaves the state as it was |
| ToothFairyView.DeviceItem | extensions/toothfairy/src/index.tsx:62-79 | the accessories hold one entry with `batteryLevelString` if and only if a battery level is present; the icon is the spinner when connecting and the decoded icon otherwise; the title is the name, and the action is `ConnectionActions` |
| Gitignore.ExportActions | extensions/gitignore/src/gitignore.tsx:110-127 | copy, paste and preview, in that order, titled "Copy to Clipboard", "Paste to App" and "Preview", all over the same list |
| Gitignore.SelectedFiles | extensions/gitignore/src/gitignore.tsx:61 | exactly the catalog entries whose id is selected |
| Gitignore.UnselectedFiles | extensions/gitignore/src/gitignore.tsx:62 | exactly the catalog entries whose id is not selected |
| Gitignore.SelectionPartition | extensions/gitignore/src/gitignore.tsx:61-62 | every entry lands in exactly one of the two lists, and both are subsequences of the catalog |
| Gitignore.HeaderItem | extensions/gitignore/src/gitignore.tsx:67-92 | "Create .gitignore From Selection" appears if and only if something is selected, and its actions get the whole selection; "Refresh" appears if and only if nothing is selected and loading is done, with a subtitle if and only if `lastUpdated` is known; otherwise no header item |
| Gitignore.ItemFor | extensions/gitignore/src/gitignore.tsx:21-46 | key, title and folder come from the template; keywords are `[folder]` if and only if it has a folder; the toggle is "Deselect"/"Select" by section and targets that template; then come copy, paste and preview, in that order, each on the singleton list |
| Gitignore.GitignoreList | extensions/gitignore/src/gitignore.tsx:8-50 | one item per template, in the given order |
| Gitignore.ToggleTargetsOfList | extensions/gitignore/src/gitignore.tsx:33-39 | a section's toggles act on its templates, each exactly once and in order |
| Gitignore.GitignoreScreen | extensions/gitignore/src/gitignore.tsx:52-108 | the create item appears if and only if some catalog entry is selected, and exports that selection; refresh appears if and only if loading is done and nothing in the catalog is selected |
| Gitignore.EveryTemplateListedOnce | extensions/gitignore/src/gitignore.tsx:61-105 | across both sections, each catalog entry gets exactly one toggle |
| Gitignore.SectionLabels | extensions/gitignore/src/gitignore.tsx:94-105 | Selected items are checked and say "Deselect" for a selected template; Available items say "Select" for an unselected one |

## Left out

- Rendering and host APIs are not modelled. This covers JSX and React, the Raycast list, action panel and navigation, icons' tint colours, `clearSearchBar` (`extensions/gitignore/src/gitignore.tsx:57-59`), and pushing the preview screen. Only the choice of items and actions is modelled.
- The JXA scripting runtime and the ToothFairy application do not appear as such. A list of devices and the connect script's effect on it stand in for them.
- `isRunning` and the startup guard at `extensions/toothfairy/src/index.tsx:9-16` are not modelled. `isRunning()` returns a Promise, so `!isRunning()` is always false. The `catch` cannot see the asynchronous rejection either. The "not running" and "not installed" screens are therefore unreachable as written.
- ToothFairyApi.Provider.Connect: the application quitting between the connect script and the refresh after it is not modelled. The bridge's running state only changes between provider events, so the refresh after a reported change always succeeds. In the source that refresh can reject, leaving the request recorded and the list not renewed; `Provider.Refresh` models such a failed fetch on its own.
- Real time is not modelled: the 2500 ms polling interval, the 40000 ms timeout length, `useEffect` scheduling, and the asynchrony of `refresh`. The model's `Connect` refreshes at once, and polls are explicit `Refresh` calls.
- The provider's teardown (`extensions/toothfairy/src/api.tsx:116-121`) is not modelled. It clears the interval, but it reads the first render's empty table, so it clears no request timers. The model therefore claims nothing about timers left behind.
- ToothFairyView.IconAfterEffect: does not model Jimp's decoding, autocrop, resize or base64 encoding, because they are a foreign library. The decoder is a parameter. Decodes that finish out of order for a changed `iconData` are not modelled either.
- `Device` objects are shared by reference between the provider and the view, so the render-time `device.connecting = true` mutates them in place. The model holds devices as values and replaces the changed element of the sequence.
- The gitignore helpers `./hooks`, `./clipboard`, `./preview` and `./types` are not part of this model. They cover selection toggling, the catalog fetch and cache, and template concatenation, so double-toggle idempotence and export order are not stated. The formatting of `lastUpdated` by `toLocaleString` is taken as a given string.
- `extensions/google-drive/src/types.ts` holds only type declarations, and `extensions/toothfairy/generate-types.ts` is build-time file generation. Neither has logic to model.
- `batteryLevel` is modelled as an integer and `id` as an unbounded integer. JavaScript numbers are floating point, but the model only compares them or tests them for presence.
