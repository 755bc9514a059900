# PanelImages — the image-list panel of the vehicle-info-card editor, in Dafny

The panel (`src/components/editor/panel-images.ts`) shows `config.images`, the
ordered list of `{url, title}` entries of a card configuration that the host
editor owns. It keeps a cached copy `_images` for rendering. Rows can be dragged
into a new order, ticked into a selection and deleted in bulk, and a new entry
can be added from a typed url. Every edit is handed back to the host as a
"config-changed" event: deletion at once, reorder and add through a debounced
commit. After a deletion, the panel compares the rendered row count with
`config.images.length`. On a mismatch it shows a placeholder for a moment and
then binds the drag library again.

The model has two modules.

- `ImageList` (`image_list.dfy`) holds the values and the pure list work:
  - `Image` and `Config`.
  - The move of one entry: `RemoveAt`, `InsertAt`, `Moved`, and `SpliceMove`, the array copy the reorder handler splices.
  - The delete filter `Kept` and the url set `Urls`.
  - Lemmas about all of these.
- `Panel` (`panel_images.dfy`) holds the class `PanelImages`. Its fields are the component's state:
  - `config`, `images` (`_images`), `selected` (`_selectedItems`), `newImageUrl` and `reindexing` (`_reindexImages`).
  - `configChanged`: the framework's record that `config` was assigned since the last update cycle.
  - The armed timers: `commitPending`, `settleTimers` and `exitTimers`.
  - The log of fired events, `events`.
  - `sortableInits`, the number of `initSortable` calls.

  Each handler is a method. Each timer callback is an explicit step:
  - `FlushDebounce` is the debounce timer firing. It emits `config` as it stands at that moment.
  - `SettleCheck(renderedCount)` is the first `setTimeout` of `validateImageList`.
  - `ReindexExit` is the nested `setTimeout`.

  The framework's update cycle is the step `ShouldUpdate`. The invariant `Valid()`
  says three things. Once an update cycle has run after the last assignment of
  `config`, the cache equals `config.images`. Nothing is selected, cached or
  scheduled before the host provides a configuration. The placeholder is up only
  while an exit timer is armed to take it down.

The source's asymmetries are kept:
- Reorder reads the cache `_images`, while select-all, delete and add read `config.images`.
- Delete only emits the new configuration and leaves the local `config` as it was.
- Reorder and add install a new `config`, which differs from the old one in `images` only.

## Model

| member | source | states |
|---|---|---|
| `ImageList.RemoveAt` | src/components/editor/panel-images.ts:171 | removing at `i` shortens the list by one; entries before `i` stay, entries after it move one place forward |
| `ImageList.InsertAt` | src/components/editor/panel-images.ts:172 | inserting at `j` lengthens the list by one; the new entry sits at `j`, entries before stay, entries from `j` on move one place back |
| `ImageList.Moved` | src/components/editor/panel-images.ts:169-172 | the reorder of the cached list: remove the entry at `oldIndex`, insert it at `newIndex`; the length is unchanged |
| `ImageList.MovedAt` | src/components/editor/panel-images.ts:169-172 | entry by entry: the moved entry lands at `newIndex`, entries strictly between the two positions shift one place towards `oldIndex`, all others keep their place |
| `ImageList.MovedRemove` | src/components/editor/panel-images.ts:169-172 | the element at `newIndex` is the old element at `oldIndex`, and deleting that position gives the old list with `oldIndex` removed |
| `ImageList.MovedPermutation` | src/components/editor/panel-images.ts:169-172 | a reorder is a permutation: same multiset of entries (and, from `Moved`, same length) |
| `ImageList.MovedSame` | src/components/editor/panel-images.ts:164-166 | moving an entry onto its own position leaves the list identical, so skipping equal indices loses nothing |
| `ImageList.MovedInverse` | src/components/editor/panel-images.ts:169-172 | dragging the entry back from `newIndex` to `oldIndex` restores the original list |
| `ImageList.MovedExamples` | src/components/editor/panel-images.ts:169-172 | on `[A,B,C,D]`, 0→2 gives `[B,C,A,D]` and 3→0 gives `[D,A,B,C]` |
| `ImageList.SpliceMove` | src/components/editor/panel-images.ts:170-172 | the copy-then-splice array work of the reorder yields exactly `Moved(s, oldIndex, newIndex)` |
| `ImageList.MovedAll` | src/components/editor/panel-images.ts:169-172 | a run of drags keeps the length and the multiset of entries |
| `ImageList.Kept` | src/components/editor/panel-images.ts:213 | the delete filter keeps only entries of the input whose url is not selected, and never lengthens the list |
| `ImageList.KeptAppend` | src/components/editor/panel-images.ts:213 | filtering distributes over concatenation, so relative order is kept |
| `ImageList.KeptSingle` | src/components/editor/panel-images.ts:213 | a single entry is kept exactly when its url is not selected |
| `ImageList.KeptCount` | src/components/editor/panel-images.ts:213 | every unselected entry survives with its multiplicity; every selected one disappears |
| `ImageList.KeptNoneSelected` | src/components/editor/panel-images.ts:213 | filtering with an empty selection returns the list unchanged |
| `ImageList.KeptAllSelected` | src/components/editor/panel-images.ts:213 | when every url of the list is selected, nothing is kept |
| `ImageList.Urls` | src/components/editor/panel-images.ts:206 | the url set holds the url of every entry, and only urls of entries |
| `ImageList.DeleteAllSelected` | src/components/editor/panel-images.ts:199-216 | select-all followed by delete-selected leaves an empty list |
| `Panel.BulkActionFor` | src/components/editor/panel-images.ts:97-103 | the bulk button is select-all exactly when the selection is empty, deselect-all exactly when it is not |
| `Panel.PanelImages.constructor` | src/components/editor/panel-images.ts:16-21 | a fresh panel has no configuration, an empty cache and selection, an empty pending url, no placeholder, nothing scheduled or emitted |
| `Panel.PanelImages.SetConfig` | src/components/editor/panel-images.ts:16 | the host's assignment installs the configuration and marks it changed; the selection is not pruned; nothing else changes |
| `Panel.PanelImages.ShouldUpdate` | src/components/editor/panel-images.ts:27-33 | the update always proceeds; if `config` changed, the cache becomes exactly `config.images`, otherwise the cache is untouched |
| `Panel.PanelImages.ConfigChanged` | src/components/editor/panel-images.ts:138-140 | one event is appended, carrying the current `config` |
| `Panel.PanelImages.DebouncedConfigChanged` | src/components/editor/panel-images.ts:35 | a call arms the single debounce timer, or re-arms it if it is already armed; nothing is emitted yet |
| `Panel.PanelImages.FlushDebounce` | src/components/editor/panel-images.ts:138-140 | when the debounce timer fires, exactly one event is emitted, carrying `config` as it stands at flush time; the timer is disarmed; no other state changes |
| `Panel.PanelImages.InitSortable` | src/components/editor/panel-images.ts:142-157 | the drag-binding count goes up by exactly one |
| `Panel.PanelImages.HandleSortEnd` | src/components/editor/panel-images.ts:159-167 | with equal indices, `config`, the cache, the pending commit and everything else are unchanged; otherwise the reorder happens |
| `Panel.PanelImages.ReorderImages` | src/components/editor/panel-images.ts:169-175 | the new `config` differs from the old one only in `images`, which is the CACHE moved from `oldIndex` to `newIndex`; the change is marked, a commit is scheduled, and nothing is emitted |
| `Panel.PanelImages.ToggleSelection` | src/components/editor/panel-images.ts:177-187 | ticking adds exactly `url`; unticking removes exactly `url` |
| `Panel.PanelImages.DeselectAllItems` | src/components/editor/panel-images.ts:189-197 | the selection becomes empty |
| `Panel.PanelImages.SelectAll` | src/components/editor/panel-images.ts:199-209 | the selection becomes exactly the set of urls in `config.images` (not in the cache) |
| `Panel.PanelImages.BulkSelect` | src/components/editor/panel-images.ts:97-103 | the bulk button selects every url of `config.images` when the selection is empty, and empties it otherwise |
| `Panel.PanelImages.DeleteSelectedItems` | src/components/editor/panel-images.ts:211-217 | with an empty selection nothing changes; otherwise exactly one event is emitted at once, carrying `config` with the unselected entries of `config.images`; the selection is emptied, the settle timer is armed, and the local `config` is not changed |
| `Panel.PanelImages.ValidateImageList` | src/components/editor/panel-images.ts:219-220 | one settle timer is armed |
| `Panel.PanelImages.SettleCheck` | src/components/editor/panel-images.ts:220-234 | if the rendered count equals `config.images.length`, nothing but the timer changes; otherwise the placeholder goes up and one exit timer is armed |
| `Panel.PanelImages.ReindexExit` | src/components/editor/panel-images.ts:226-230 | the placeholder comes down and the drag binding is initialised exactly once more |
| `Panel.PanelImages.ToggleAddButton` | src/components/editor/panel-images.ts:237-248 | a non-empty input becomes the pending url; an empty input leaves the previous pending url |
| `Panel.PanelImages.AddNewImageUrl` | src/components/editor/panel-images.ts:249-256 | with no pending url or no `config`, nothing changes; otherwise `config.images` gains exactly `{url: p, title: p}` at the end, earlier entries and other fields unchanged; the pending url is reset, and a commit is scheduled |
| `Panel.PanelImages.DragAndUpdate` | src/components/editor/panel-images.ts:159-175 | a drag followed by its update cycle leaves cache and `config.images` both equal to the moved list; a commit is due if it was due before or the drop moved the entry; selection, pending url, placeholder flag, timers and binding count are unchanged |
| `Panel.PanelImages.DragBurst` | src/components/editor/panel-images.ts:169-175 | a run of drags and then the debounce timer emits at most one event, exactly one if any drag moved an entry or a commit was already due; it carries the list after the last drag; afterwards the cache is current, and selection, pending url, placeholder flag, timers and binding count are unchanged |
| `Panel.PanelImages.Reconcile` | src/components/editor/panel-images.ts:219-235 | a settle check plus the exit it arms: on a count mismatch, the placeholder is down afterwards and the binding was initialised exactly once; when the counts agree, nothing changes; in both cases `config`, the cache, selection, pending url, the pending commit and the event log are untouched |

## Left out

- Rendering is not modelled: the templates, localisation and styling of `render`, `_imageList` and `_renderUploadAddNewImage`. The model keeps only the bulk-button choice (`BulkActionFor`).
- The drag library is not modelled: `initSortable` is a counter of calls, and `_sortable` is not kept.
- The DOM checkbox writes in select-all and deselect-all are not modelled.
- The CSS class toggling of the add button and the `if (!addButton)` guard are not modelled: the button is part of the template, so the guard always passes.
- `fireEvent` is not modelled as a call: it is an append to `events`.
- `localize` and `console.log` are not modelled.
- The file-upload handler `handleFilePicked` and the per-row title editor `imageInputChange` are not part of this model. They live in `src/utils/editor-image-handler.ts`, which is not included.
- Timer durations (200 ms, 300 ms) and the internals of the debounce helper are left out. Timers are steps that may run only while armed. A debounce timer restarted by a later call is the same single armed flag.
- The `show_image_index` checkbox is delegated to the host editor and is not modelled. `Config.showImageIndex` stands for every configuration field the panel never changes.
- A configuration without an `images` list is not modelled: `Config.images` is always a sequence. The source tolerates a missing list when rendering (`panel-images.ts:77` and `:115`). On such a configuration, `addNewImageUrl` would throw at `:251` and the settle check would throw at `:222`. The model instead appends to, or counts, a list that is present.
- The unset `_images` of a fresh panel (`panel-images.ts:17` has no initial value) is modelled as the empty list, which is what `:77` renders in its place.
- Object identity is not modelled. The model keeps configurations and lists as values, so "a fresh copy that leaves the previous array untouched" holds by construction. Every assignment of `config` counts as a change, even where the framework would skip re-assigning the same object.
- `Panel.PanelImages.HandleSortEnd`: when the indices differ, both must lie within `_images`, because the drag library reports positions of rendered rows. The source does not check this. An out-of-range `oldIndex` would splice `undefined` into the list. An out-of-range `newIndex` is well defined in the source: the entry is appended at the end (`[A,B,C]` with 0→5 gives `[B,C,A]`). Neither case is modelled.
- `Panel.PanelImages.ReorderImages`: requires both indices within `_images`, for the same reason.
- `Panel.PanelImages.SelectAll`, `Panel.PanelImages.BulkSelect` and `Panel.PanelImages.ToggleSelection` require a configuration. The source dereferences `config.images` there, or the checkbox exists only after a render, which itself reads `config.images`. Without a configuration these calls would throw, and that path is not modelled.
- The surrounding editor's own update scheduling is not modelled. An update cycle (`ShouldUpdate`) is a step the environment takes. `DragAndUpdate` and `DragBurst` assume one update cycle after every drag.
