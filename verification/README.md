# webcompat-devtool tracker state, in Dafny

This project models the two state components of the webcompat debugging devtool:

- **The per-tab unblock store** of the `webcompatDebugger` experiment API
  (`experiments/api.js`). `context.unblockedChannels` maps a tab id to the set of
  hostnames that tracking protection lets through in that tab. The model covers
  `getAPI`'s store creation, `getUnblockedTrackers`, `updateUnblockedChannels`,
  `clearUnblockList`, and the request observer's decision to allow a blocked channel.
- **The devtools panel's tracker state** (`WebcompatDebugger` in
  `content/devtools-panel.js`). It holds the sets `allTrackers` and `unblocked`. It
  also holds the rendered checkbox list. Each re-render checks a tracker's box iff the
  tracker is not unblocked. The block-all, unblock-all and checkbox controls then
  change boxes without changing either set. The
  model covers the `onMessage` reducer over its three message kinds, the list
  rendering, and the messages sent by the block-all, unblock-all and checkbox controls.

A JavaScript `Set` keeps insertion order, and the code relies on that order in
`Array.from` and `forEach`. So each set is modelled as a sequence without duplicates,
oldest element first (module `OrderedSets`). `s.add`, `s.delete` and `new Set(xs)`
are the functions `Add`, `Delete` and `FromSeq`. Because the sets keep their order,
idempotence and round trips are proved as equalities of sequences, which is stronger
than equality of sets.

Each asynchronous API call and each event handler is one atomic, pure state update.
An event handler returns the new panel plus the messages it sent, in order. A thrown
`TypeError` is a `Result` value. `getUnblockedTrackers` and `clearUnblockList` throw
it when `context.unblockedChannels` is `undefined`.

Modules: `Wrappers` (Option, Result), `OrderedSets`, `UnblockStore`,
`DevtoolsPanel`, and `PanelStore`. `PanelStore` considers a direct wiring of the
panel to the store, which the repository's background script does not make (see
"## Left out"). Under that wiring, the panel's outgoing `(trackers, blocked)` pair is
applied with `updateUnblockedChannels`. `PanelStore` shows that the checkbox state
and the store's allow decision then agree.

## Model

| member | source | states |
|---|---|---|
| OrderedSets.Add | experiments/api.js:29 | `set.add` holds the old values plus the new one. Existing values keep their positions. No duplicate appears. Adding a present value changes nothing. |
| OrderedSets.Delete | experiments/api.js:27 | `set.delete` removes exactly that value. No duplicate appears. Deleting an absent value changes nothing. |
| OrderedSets.DeleteAt | experiments/api.js:27 | In a set, deleting the value at position `k` cuts it out there. The values before and after it keep their order. |
| OrderedSets.AddAll | experiments/api.js:25-30 | Adding a batch of hostnames one by one yields the union of the old set and the batch. The old elements stay in front in their order, and duplicates in the batch are absorbed. |
| OrderedSets.DeleteAll | experiments/api.js:25-28 | Deleting a batch one by one yields the old set minus the batch, without duplicates. |
| OrderedSets.DeleteAllIsWithout | experiments/api.js:25-28 | Deleting a batch one by one keeps exactly the values not in the batch, in their original insertion order. `Without` is a separate reference filter used to state this. |
| OrderedSets.FromSeq | content/devtools-panel.js:104 | `new Set(xs)` holds exactly the distinct values of `xs`, each once. |
| OrderedSets.AddAllSnoc | experiments/api.js:25-30 | Adding a batch `xs + [x]` one by one equals adding `xs` and then adding `x`. |
| OrderedSets.FromSeqSteps | content/devtools-panel.js:104 | `new Set([])` is empty, and `new Set(xs + [x])` is `new Set(xs)` with `x` added. So the set lists the distinct values of `xs` in order of first occurrence. |
| OrderedSets.AddAllIdempotent | experiments/api.js:25-30 | Repeating a batch of adds leaves the set unchanged, order included. |
| OrderedSets.DeleteAllIdempotent | experiments/api.js:25-28 | Repeating a batch of deletes leaves the set unchanged. |
| OrderedSets.FromSeqOfSet | content/devtools-panel.js:113-114 | Rebuilding a set from its own array (`new Set(Array.from(s))`) gives back the same set in the same order. |
| UnblockStore.GetApi | experiments/api.js:9-11 | After `getAPI` a store exists. An existing store is kept with every tab's entry intact. |
| UnblockStore.GetUnblockedTrackers | experiments/api.js:15-17 | A tab without an entry gives `[]`. Otherwise the result is exactly the tab's list, in insertion order, with no duplicates in a valid store. A missing store throws a `TypeError`. |
| UnblockStore.AllowsChannel | experiments/api.js:64 | The optional chaining makes a missing store or a missing tab entry mean not allowed. With an entry, a channel is allowed iff its URL is in the tab's set. |
| UnblockStore.AllowedIffListed | experiments/api.js:64-66 | The observer's check `AllowsChannel` allows a blocked channel iff its URL appears in what `getUnblockedTrackers` reports for the tab. A missing store or a missing tab means not allowed. |
| UnblockStore.ApplyHostnames | experiments/api.js:25-31 | After the `forEach`, a listed hostname is present iff `blocked` is false. An unlisted hostname is present iff it was before. A set without duplicates stays without duplicates. |
| UnblockStore.UpdateUnblockedChannels | experiments/api.js:18-32 | Afterwards every listed hostname is allowed iff `blocked` is false. Unlisted hostnames and all other tabs are unchanged. The tab always has an entry, so a missing tab with an empty batch gets `[]`. An add keeps the earlier entries first. A delete leaves exactly the unlisted hostnames, in their earlier order. Validity is preserved. |
| UnblockStore.ClearUnblockList | experiments/api.js:33-35 | The tab's list becomes empty and allows nothing. Other tabs are unchanged. A missing store throws a `TypeError`. |
| UnblockStore.UpdateIdempotent | experiments/api.js:25-31 | Repeating the same `updateUnblockedChannels` call changes nothing. |
| UnblockStore.UpdateEmptyBatch | experiments/api.js:22-31 | An update with no hostnames leaves the context unchanged when the tab already has an entry. |
| UnblockStore.ClearAfterUpdate | experiments/api.js:33-35 | Clearing a tab gives the same result whether or not an update of that tab came before. |
| DevtoolsPanel.RenderList | content/devtools-panel.js:57-75 | The list has one item per tracker, in set order. A tracker's box is checked iff the tracker is not unblocked. |
| DevtoolsPanel.Init | content/devtools-panel.js:27-33 | `init` starts with empty sets and an empty list. It sends `get-unblocked-trackers` and then `fetch-initial-trackers` with the inspected tab id. |
| DevtoolsPanel.OnMessage | content/devtools-panel.js:100-121 | `initial-trackers` sets `allTrackers` to `new Set(trackers)`, which holds exactly the given trackers in order of first occurrence, and keeps `unblocked`. `blocked-request` appends a new tracker at the end of `allTrackers`, so the list shows it last. For an already known tracker both sets are unchanged and the list is re-rendered, which resets any box the controls changed. `unblocked-trackers` sets `unblocked` to `new Set(unblockedTrackers)` and keeps `allTrackers`. Each of these re-renders the list. Any other message changes nothing, not even the list. |
| DevtoolsPanel.SetAllTrackers | content/devtools-panel.js:37-54 | Block all / unblock all sends `update-all-trackers` with the flag and the full `allTrackers`. Every checkbox is set to the flag, and both sets are unchanged. |
| DevtoolsPanel.OnCheckboxChange | content/devtools-panel.js:85-90 | A change flips that one box and no other. It sends `toggle-tracker` with the tracker and `blocked` equal to the box's new checked state. |
| DevtoolsPanel.RenderOneItemPerTracker | content/devtools-panel.js:57-63 | Rendering a set shows each of its trackers in exactly one item and shows nothing else. |
| DevtoolsPanel.MessageRendersEachTrackerOnce | content/devtools-panel.js:100-117 | After any of the three handled messages the list holds exactly one item per tracker in `allTrackers`. |
| DevtoolsPanel.InitListMatches | content/devtools-panel.js:27-33 | After `init` the list matches the tracker set item for item. |
| DevtoolsPanel.MessageKeepsListMatching | content/devtools-panel.js:100-121 | Every message keeps the list matching `allTrackers` item for item. |
| DevtoolsPanel.SetAllKeepsListMatching | content/devtools-panel.js:37-54 | Block all and unblock all keep the list matching `allTrackers` item for item, though they change the boxes. |
| DevtoolsPanel.CheckboxKeepsListMatching | content/devtools-panel.js:85-90 | A checkbox change keeps the list matching `allTrackers` item for item. |
| DevtoolsPanel.BlockedRequestIdempotent | content/devtools-panel.js:107-110 | Handling the same `blocked-request` twice is the same as handling it once. |
| PanelStore.ToggleAgreesWithStore | content/devtools-panel.js:85-89 | Suppose the store applies the toggle's `(tracker, blocked)`. The tracker's entry is then allowed iff its box is unchecked. |
| PanelStore.SetAllAgreesWithStore | content/devtools-panel.js:37-54 | Suppose the store applies a block-all or unblock-all batch from a panel whose list matches `allTrackers`, including after earlier clicks and toggles. Every listed tracker's entry is then allowed iff its box is unchecked. |
| PanelStore.UnblockedListMirrorsStore | content/devtools-panel.js:112-116 | Suppose the store's list for a tab arrives as `unblocked-trackers`. The panel's `unblocked` then equals that list, order included. Each box is checked iff the store would not allow that tracker. |

## Left out

- The observer registration around the allow decision (experiments/api.js:36-79) is not modelled. This covers finding the tab by browser id, `tabManager.convert`, `channel.allow()`, `fire.sync` and listener removal. These are calls into browser services. Only the decision at line 64 is modelled, as `AllowsChannel`.
- `AllowsChannel` compares the channel's full URL with the stored entries, exactly as line 64 does. Whether callers store URLs, hostnames or match patterns is decided outside this model.
- Tab ids are modelled as integers. JavaScript object keys are strings, so the ids `1` and `"1"` would share an entry in the source. The model does not represent that.
- DOM construction, element ids, labels, event-listener wiring and `console` logging in the panel are not modelled. The list is represented only as its (tracker, checked) items.
- The payload fields of an incoming message are taken as given. JavaScript's `undefined` for a missing field is not modelled.
- `OnCheckboxChange` requires an existing list index. The source attaches one listener per rendered item, so a change event for an item that does not exist cannot occur.
- The background script (background/background.js) is not part of this model. It routes panel messages to experiment functions, reloads tabs, and derives hostnames with the `URL` constructor.
- PanelStore: its three lemmas describe a hypothetical direct wiring, not what background/background.js does. `toggle-tracker` and `update-all-trackers` go to `updateTrackingSkipURLs` (background.js:34, :50), which experiments/api.js does not define, and nothing in these files calls `updateUnblockedChannels`. `getUnblockedTrackers()` is called without a tab id (background.js:23, :38). Tracker strings are `*://host/*` match patterns (background.js:14, :68), while the observer compares the full `channel.url`. So "allowed" in these lemmas is about the store entry equal to the tracker string.
- The interactive bisection debugger (a domain stage, a subdomain stage and a completed stage) is not part of this model. content/devtools-panel.fsm.test.js:33-39 imports `DebuggerFSMContext`, `DomainStageState`, `SubdomainStageState` and `CompletedState` from content/devtools-panel.js. That file defines only `WebcompatDebugger` (lines 10-122), so there is no implementation of the debugger to model.
