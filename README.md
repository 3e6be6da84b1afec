# DistinctFolders, modelled in Dafny

DistinctFolders is a client plugin for a chat application's desktop client. It watches the
"Servers" sidebar. It paints the background indicator of each server folder in the colour of
the folder's icon, so that folders can be told apart. This project models its decision core
over an abstract node tree:

- the class-name tests that recognise folder wrappers and list items;
- the walk up the parent chain that finds the folder above a restyled icon;
- the mutation callback, which turns each mutation record into paint actions;
- painting and resetting one folder's indicator;
- the lifecycle of the plugin's observer and poll timer (`initServers`, the poll tick, `start`, `stop`).

Modules, one per concern of `DistinctFolders.plugin.js`:

- `Classify` (classify.dfy): the `wrapper-` and `listItem-` prefix tests on a class name. A
  class name that is not a string (an SVG element's) is `None`.
- `Dom` (dom.dfy): the node class. Its tree shape, class names and icon colour are `const`,
  because the plugin never writes them within one callback; its inline `style` is a `var`.
  `ChainFrom(start, chain)` says that `chain` is the finite parent chain from `start`.
- `FolderSearch` (folder_search.dfy): a declarative search over the class names of a
  chain. `FolderIndex` finds the first wrapper after the first list item. The loop of
  `findFolderNode` is proved equal to it and proved to terminate.
- `Painting` (painting.dfy): `updateFolderNode`, `resetFolderNode`, and the loops over the
  container's direct children in `initServers` and `stop`. When two wrappers share an
  indicator, the last write wins (`LastPainter`). In a DOM tree indicators are not shared, so
  each indicator takes its own icon's colour.
- `Mutations` (mutations.dfy): `mutate` as a list of `Deferred(node)` / `Immediate(node)`
  actions. `Dispatch` is its specification. It takes, for each record, the node that the
  folder search returns from the record's target.
- `Plugin` (plugin.dfy): the plugin instance. Observers and interval timers are handles
  with a live flag. `Valid()` states that at most one observer of the instance is connected,
  and that it is the stored one.

Where the code and the behaviour evidently intended for it differ, the model follows the code:

- `start` with no "Servers" container throws at line 85, before the poll is created. The
  comments at lines 114-116 say the poll exists to pick the container up again, so the evident
  intent is that the poll still begins.
- `stop` dereferences the observer (line 135) and the container it looks up (line 148)
  without checks, so a missing container throws instead of leaving nothing to reset.
- `svgNode.style.color ?? "transparent"` (line 63) falls back only on null or undefined. An
  empty colour string is copied as it is (`Painting.PaintedCopiesIconColour`). In a browser an
  unset inline colour reads as `""`, never null, so the "transparent" fallback never fires and
  line 65 writes `""`, which removes the indicator's background instead of making it transparent.
- A tick whose fresh lookup finds nothing still stores that null as the tracked container
  (line 122). The next tick therefore looks up again.
- `start` does not clear a timer stored by an earlier `start`. After two starts, one observer
  is connected but two poll timers are active (`Plugin.StartTwice`). A `stop` then clears only
  the second timer; the first stays active (`Plugin.StartTwiceStop`), and its callback can
  re-initialise and reconnect an observer after `stop` has returned.

## Model

| member | source | states |
|---|---|---|
| `Classify.ClassesExclusive` | DistinctFolders.plugin.js:76-82 | no class name passes both the wrapper test and the list-item test |
| `Classify.NonStringIsNeither` | DistinctFolders.plugin.js:76-82 | a class name that is not a string is neither a wrapper nor a list item |
| `Classify.PrefixExamples` | DistinctFolders.plugin.js:76-82 | the tests match the exact prefix, dash included: "wrapper-abc123" passes, "wrapperabc" and "xwrapper-abc" fail; "listitem-" (lower case) fails |
| `Dom.WrapperAndListExclusive` | DistinctFolders.plugin.js:76-82 | `isWrapperNode` and `isListNode` never both hold of a node, and neither holds when its className is not a string |
| `FolderSearch.FirstListItem` | DistinctFolders.plugin.js:46-50 | the first list item on a chain: it is a list item and none comes before it, or there is none at all |
| `FolderSearch.FirstWrapperFrom` | DistinctFolders.plugin.js:46-52 | the first wrapper at or after a position: it is a wrapper and none lies between, or there is none |
| `FolderSearch.FolderIndex` | DistinctFolders.plugin.js:43-55 | the folder is a wrapper, strictly above start and strictly above the first list item (which may be start itself); no wrapper lies between that list item and it; there is none exactly when there is no list item or no wrapper above the first one |
| `FolderSearch.FolderOf` | DistinctFolders.plugin.js:43-55 | a folder found on a chain is a wrapper and a strict ancestor of the start node |
| `FolderSearch.FolderIndexExamples` | DistinctFolders.plugin.js:43-55 | on icon, list item, other, wrapper, root the folder is the wrapper; a wrapper met before any list item is not a match |
| `FolderSearch.FindFolderNode` | DistinctFolders.plugin.js:43-55 | the loop ends on every finite parent chain and returns exactly the folder `FolderIndex` names (a wrapper strictly above start), or null exactly when `FolderIndex` finds none |
| `Painting.PaintedCopiesIconColour` | DistinctFolders.plugin.js:63-66 | a paint sets opacity 0.5 and copies the icon colour; "transparent" is used only when the colour is null or undefined; an empty string is copied; the result does not depend on the previous style |
| `Painting.ClearedIdempotent` | DistinctFolders.plugin.js:69-74 | a reset is idempotent, and a reset after a paint removes the colour but keeps opacity 0.5 |
| `Painting.UpdateFolderNode` | DistinctFolders.plugin.js:57-67 | when icon and indicator are both found, the indicator gets the icon's colour (or "transparent") and opacity 0.5; otherwise nothing changes; only the indicator may change |
| `Painting.ResetFolderNode` | DistinctFolders.plugin.js:69-74 | when the indicator is found, its background colour is removed and its opacity is kept; otherwise nothing changes |
| `Painting.LastPainter` | DistinctFolders.plugin.js:85-87 | the last painting wrapper of a sequence whose indicator is a given node: it paints that node and no later one does, or none does |
| `Painting.OwnIndicator` | DistinctFolders.plugin.js:85-87 | when no two wrappers share an indicator, each painting wrapper is the last painter of its own indicator |
| `Painting.PaintWrapperChildren` | DistinctFolders.plugin.js:85-87 | only indicators of direct wrapper children change; each takes the colour of its last painting wrapper; with unshared indicators, each wrapper's indicator holds its own icon's colour at opacity 0.5 |
| `Painting.ResetWrapperChildren` | DistinctFolders.plugin.js:146-150 | every indicator of a direct wrapper child loses its background colour and keeps its opacity; no other node changes |
| `Mutations.PaintAddedExactly` | DistinctFolders.plugin.js:24-27 | the paints for the added nodes are immediate paints of added wrappers only, no more than there are added nodes, and each wrapper is painted exactly as many times as it occurs among the added nodes (a non-wrapper never) |
| `Mutations.PaintAddedAppend` | DistinctFolders.plugin.js:25-27 | added nodes are painted in their order: the paints for two runs of added nodes are the concatenation of each run's paints |
| `Mutations.PaintAddedWrappers` | DistinctFolders.plugin.js:25-27 | the inner loop emits exactly the paints of the added wrappers, in order |
| `Mutations.RecordDispatchTable` | DistinctFolders.plugin.js:19-40 | a child-list record on a wrapper gives one deferred paint of it and its added nodes are ignored; on another target it gives the added wrappers' paints (none when addedNodes is null); a style change on an SVG gives a paint of the folder iff one is found; any other record gives nothing |
| `Mutations.DispatchAppend` | DistinctFolders.plugin.js:19 | records are handled in delivered order: the actions for two batches in a row are the two batches' actions concatenated |
| `Mutations.DispatchSound` | DistinctFolders.plugin.js:18-41 | every action paints a wrapper; a deferred paint is of a child-list record's target; an immediate paint is of an added node of a child-list record on a non-wrapper target, or the folder found for a style change |
| `Mutations.DispatchComplete` | DistinctFolders.plugin.js:18-41 | every paint a record calls for appears among the batch's actions |
| `Mutations.Mutate` | DistinctFolders.plugin.js:18-41 | the callback's actions are exactly `Dispatch` of the records, using the folder search for style changes, and every action paints a wrapper |
| `Plugin.DistinctFolders.InitServers` | DistinctFolders.plugin.js:84-101 | direct wrapper children are painted as `PaintWrapperChildren` states; a fresh observer on the container is stored, the previous one is disconnected, and afterwards exactly one observer of the instance is connected |
| `Plugin.DistinctFolders.Start` | DistinctFolders.plugin.js:107-129 | initialises as `InitServers` on the container found at start, tracks it, and adds one fresh active poll timer; timers already active stay active |
| `Plugin.DistinctFolders.Tick` | DistinctFolders.plugin.js:117-128 | while the tracked container is attached nothing changes; otherwise the fresh lookup becomes the tracked container, and if it is not null `InitServers` runs on it, leaving only its new observer connected |
| `Plugin.DistinctFolders.Stop` | DistinctFolders.plugin.js:131-151 | the observer is disconnected and cleared, the poll timer is cleared and nulled, no observer stays connected, and every direct wrapper child of the looked-up container has its indicator reset |
| `Plugin.StartThenStop` | DistinctFolders.plugin.js:107-151 | start then stop leaves no connected observer, no active timer, and no background colour on any indicator of the container's wrapper children |
| `Plugin.StartTwice` | DistinctFolders.plugin.js:107-129 | two starts leave exactly one observer connected, and two poll timers active |
| `Plugin.Reattach` | DistinctFolders.plugin.js:117-128 | after the tracked container is detached and a new one is found, the plugin tracks and observes the new one, no observer of the old one is connected, and (with unshared indicators) each wrapper child of the new container has its indicator painted in its own icon's colour at opacity 0.5 |
| `Plugin.StartTwiceStop` | DistinctFolders.plugin.js:107-143 | after two starts and a stop, no observer is connected and the observer and timer fields are null, but one poll timer (the first start's) is still active |

## Left out

- The DOM lookups are left out: `document.querySelector`, `Element.querySelector` and their
  attribute-prefix selectors. The container lookup is a parameter. The icon and indicator of
  a node are the given fields `svgChild` and `background`.
- `MutationObserver` construction, its `observe` options, and how the host batches and
  delivers records are left out. An observer is a handle with a `connected` flag.
- `setTimeout` and `setInterval` timing are left out. A deferred paint is an emitted
  `Deferred` action, and the interval is a handle with an `active` flag.
- `document.body.contains` is the `stillAttached` parameter of a tick.
- Logging and the constructor's copying of metadata keys onto the instance are left out.
- Colour strings are opaque: they are copied through, not parsed.
- Mutate: returns the paint actions instead of running the immediate paints itself. The
  effect of each paint is what `UpdateFolderNode` states.
- Tick: models one tracked container per instance. Each `start` really gives its interval
  callback its own captured container. After a second `start`, the earlier timer's callback
  still polls its own copy, and that is not modelled.
- Start: when the lookup finds no container, the code throws a TypeError at line 85 before the
  poll timer is created; that path is a precondition here.
- Stop: when the observer or the looked-up container is null, the code throws a TypeError,
  and that path is a precondition here. The observer and interval are already cleared
  before line 148 throws.
- Host changes to the tree between callbacks (moved nodes, new class names, new icon
  colours) are not modelled. Within one modelled operation the tree is fixed.
