# ArtBoard transform and gesture model

A Dafny model of the `ArtBoard` component (`src/artboard/artboard.tsx`): the
per-element transform frames, the selection, the interaction lock, the
modifier-key flags, the selectable registry and the tooltip, driven by the
component's handlers as one sequential state machine. Every handler is a pure
function from the `Board` record to a new `Board`; start handlers also return
the baseline they hand the gesture recogniser through `set(...)`.

Modules, one file each:

- `Common` (`common.dfy`): `Option`, `Vec2`, `Element`. An element is a
  reference identity only; the class list the group click inspects is passed
  with the click, because it can change while the element stays the same.
- `Seqs` (`seqs.dfy`): `indexOf`, `splice`, and the ctrl-click toggle that both
  click handlers use, on sequences.
- `Frames` (`frames.dfy`): the frame record and the lazily filled frame store
  (`newFrame`/`getFrame`).
- `ArtBoardState` (`state.dfy`): the `Board` record.
- `Feedback` (`feedback.dfy`): the lock (`lockSelector`/`unLockSelector`) and
  the tooltip (`setTooltipContent`/`hideTooltip`).
- `Keys`, `Registry`, `Selection`: key flags, `selectables`, `state.target`.
- `Gestures` (`gestures.dfy`): single-target drag, resize and rotate.
- `GroupGestures` (`groups.dfy`): the group variants, which fan sub-events out
  in order.
- `Events` (`events.dfy`): one event type, `Step` and `Run`, and the laws that
  hold over any run of events.

Points where the code may not do what a reader expects; the model follows
the code:

- With shift held, drag locks the axis X first. X moves when `delta[0] != 0`.
  Otherwise Y moves when `delta[1] != 0`. The axis is not chosen by the larger
  delta.
- Single rotate adds `beforeDelta` to the angle stored in the frame. The
  stored angle already holds the previous events of the gesture, so angles
  accumulate: 10, then +25, then +40 gives 75 (`Gestures.RotateScenario`).
- A click on an already selected element without ctrl leaves the selection
  as it is. It does not replace the selection with that element.
- `handleMultipleSelectChange` does not update `lastSelectElement`. Only
  `handleSelectChange` does.
- The selection handlers do not consult the lock themselves. The lock is only
  passed to the drag-select collaborator as its `locked` prop.
- The group-rotate start does not call the single rotate start. It locks once
  and reads the frames itself.

## Model

| member | source | states |
|---|---|---|
| Frames.GetFrame | src/artboard/artboard.tsx:116-134 | the returned frame is the one stored for the element afterwards; the key set grows by exactly that element; existing frames are unchanged; an unseen element gets translate 0, rotate 0, scale 1, no size |
| Frames.GetFrameStable | src/artboard/artboard.tsx:132-134 | a second `getFrame` returns the same frame and leaves the store alone; on a stored element the store is untouched |
| Feedback.LockSelector | src/artboard/artboard.tsx:383-385 | the lock is up afterwards and no other field changes |
| Feedback.UnlockSelector | src/artboard/artboard.tsx:387-389 | the lock is down afterwards whatever it was, and no other field changes |
| Feedback.LockNotCounted | src/artboard/artboard.tsx:383-389 | acquisitions are not counted: two locks equal one, one unlock after any number of locks equals unlocking the original, unlock is idempotent |
| Feedback.TooltipOffset | src/artboard/artboard.tsx:371-372 | an offset exists exactly when the scale is non-zero, and it inverts back to the pointer: (x - 50) * scale = clientX, (y + 10) * scale = clientY |
| Feedback.ShowTooltip | src/artboard/artboard.tsx:368-375 | the tooltip is visible at the pointer; its scale is 1 when more than one element is selected and the view zoom otherwise; nothing else changes |
| Feedback.HideTooltip | src/artboard/artboard.tsx:377-381 | the tooltip is hidden, its placement kept, nothing else changes |
| Feedback.ShowHideShow | src/artboard/artboard.tsx:368-381 | hiding is idempotent; show, hide, show at the same pointer equals one show |
| Feedback.GroupTooltipUnscaled | src/artboard/artboard.tsx:370-372 | with more than one element selected the tooltip offset is the raw pointer plus (50, -10) |
| Keys.KeyDown | src/artboard/artboard.tsx:196-218 | the key's flag is up afterwards and every other field, other flags included, is unchanged |
| Keys.KeyUp | src/artboard/artboard.tsx:196-224 | the key's flag is down afterwards and every other field is unchanged |
| Keys.PressRelease | src/artboard/artboard.tsx:212-224 | a repeated key-down is a no-op; press then release of a released key restores the board |
| Registry.ChildMounted | src/artboard/artboard.tsx:152-166 | an id that already maps to a live element is left alone; otherwise the id maps to the given element (null included); no other id changes and no id is lost |
| Registry.ChildUnmounted | src/artboard/artboard.tsx:167-170 | unmounting changes nothing |
| Registry.RegisteredIsStable | src/artboard/artboard.tsx:156-165 | an id registered with a live element keeps its entry through any mount |
| Seqs.IndexOf | src/artboard/artboard.tsx:240 | -1 exactly when the element is absent; otherwise a position holding it with no earlier occurrence |
| Seqs.RemoveAt | src/artboard/artboard.tsx:248-249 | one shorter; elements before the index kept in place, elements after shifted down by one; the multiset loses exactly the removed element |
| Seqs.Toggle | src/artboard/artboard.tsx:294-302 | an absent element is appended at the end; a present one loses exactly one occurrence, its first, with the rest in order |
| Seqs.ToggleCutsFirst | src/artboard/artboard.tsx:240-249 | toggling a present element cuts out the element at its `indexOf` position |
| Seqs.ToggleMembers | src/artboard/artboard.tsx:294-302 | on a duplicate-free sequence the toggle is a symmetric difference on members and stays duplicate-free |
| Seqs.ToggleTwiceAbsent | src/artboard/artboard.tsx:240-250 | toggling an absent element twice restores the sequence |
| Selection.SelectChange | src/artboard/artboard.tsx:228-258 | the click is recorded with its time; no target empties the selection; an unselected target is appended with ctrl and becomes the whole selection without; a selected target is cut out at its `indexOf` position with ctrl, the others keeping their order, and leaves the selection unchanged without; nothing else changes |
| Selection.SelectChangeKeepsNoDup | src/artboard/artboard.tsx:238-250 | on a duplicate-free selection the result is duplicate-free; with ctrl membership flips for the clicked element only |
| Selection.CtrlClickTwiceRestores | src/artboard/artboard.tsx:240-250 | two ctrl-clicks on an unselected element restore the selection |
| Selection.MultipleSelectChange | src/artboard/artboard.tsx:260-278 | the selection becomes the marquee list and nothing else changes, the last-click record included |
| Selection.MarqueeOverrides | src/artboard/artboard.tsx:260-265 | the later marquee result wins outright; a marquee keeps the last single-click record |
| Selection.GroupClick | src/artboard/artboard.tsx:282-309 | an input target whose class list lacks `element__wrapper` changes nothing; with ctrl an absent input target is appended to the reported group and a present one is cut out at its `indexOf` position, the others keeping their order; without ctrl the selection is exactly the input target |
| Selection.GroupClickToggles | src/artboard/artboard.tsx:294-302 | on a duplicate-free group a ctrl group-click flips the input target's membership only and stays duplicate-free |
| Selection.GroupClickAppendScenario | src/artboard/artboard.tsx:297-300 | two selected, ctrl, a third wrapper clicked: the selection is the two then the third |
| Gestures.Begin | src/artboard/artboard.tsx:391-393 | a start locks and materialises the target's frame without changing what `getFrame` returns for any element |
| Gestures.DragStart | src/artboard/artboard.tsx:391-398 | the seed is the stored translation of the target, (0, 0) for an element without a frame |
| Gestures.Drag | src/artboard/artboard.tsx:400-430 | without shift both axes take `beforeTranslate`; with shift only X moves when its delta is non-zero, else only Y when its delta is non-zero, else nothing; rotate, scale and size are kept; only the target's frame changes; the tooltip follows unless pinching |
| Gestures.ResizeStart | src/artboard/artboard.tsx:437-448 | a seed exists exactly when the recogniser offers a drag hook, and it is the stored translation |
| Gestures.Resize | src/artboard/artboard.tsx:450-474 | width, height and both translations are written together; rotate and scale are kept; only the target's frame changes; the tooltip follows unless pinching |
| Gestures.RotateStart | src/artboard/artboard.tsx:481-486 | the seed is the stored angle, 0 for an element without a frame |
| Gestures.Rotate | src/artboard/artboard.tsx:488-505 | the new angle minus the stored angle is `beforeDelta`; translation, scale and size are kept; only the target's frame changes |
| Gestures.EndGesture | src/artboard/artboard.tsx:432-435 | the lock is down and the tooltip hidden with its placement kept; nothing else changes |
| Gestures.EndGestureIdempotent | src/artboard/artboard.tsx:476-479 | ending twice equals ending once |
| Gestures.AbsoluteWritesIdempotent | src/artboard/artboard.tsx:411-421 | replaying a drag or a resize event changes nothing further |
| Gestures.DragScenario | src/artboard/artboard.tsx:391-421 | default frame, seed (0, 0), `beforeTranslate` (15, -4) without shift: the frame is at (15, -4) |
| Gestures.RotateScenario | src/artboard/artboard.tsx:497-502 | stored 10, deltas 25 then 40: the angle reads 35 then 75 |
| GroupGestures.DragStartEach | src/artboard/artboard.tsx:320 | on a locked board, one seed per target, each the target's stored translation; frames materialised, nothing else changes |
| GroupGestures.DragGroupStart | src/artboard/artboard.tsx:317-321 | locks, then seeds every member from its stored translation |
| GroupGestures.ResizeStartEach | src/artboard/artboard.tsx:339 | on a locked board, one seed per sub-event, present exactly when a drag hook is offered |
| GroupGestures.ResizeGroupStart | src/artboard/artboard.tsx:334-340 | locks, then starts every member |
| GroupGestures.RotateStartMember | src/artboard/artboard.tsx:517-528 | one member: frame materialised; seed angle and optional translation are the stored ones |
| GroupGestures.RotateStartEach | src/artboard/artboard.tsx:517-528 | on a locked board, one seed per sub-event from the stored frame |
| GroupGestures.RotateGroupStart | src/artboard/artboard.tsx:512-531 | locks once, then seeds every member with its stored angle and, when asked, translation |
| GroupGestures.GroupSeedsMatchSingle | src/artboard/artboard.tsx:317-340 | each group seed equals the seed the single start would give that member |
| GroupGestures.DragGroup | src/artboard/artboard.tsx:322-324 | frames of non-members unchanged; every member has a frame; only frames and tooltip change; all-pinch leaves the tooltip, any non-pinch shows it |
| GroupGestures.DragGroupKeepsPose | src/artboard/artboard.tsx:322-324 | a group drag changes translations only, for every element |
| GroupGestures.DragGroupLastWins | src/artboard/artboard.tsx:322-324 | without shift each member ends at the translation of its last sub-event |
| GroupGestures.ResizeGroup | src/artboard/artboard.tsx:341-343 | frames of non-members unchanged; every member has a frame; only frames and tooltip change |
| GroupGestures.ResizeGroupKeepsPose | src/artboard/artboard.tsx:341-343 | a group resize never changes rotation or scale |
| GroupGestures.ResizeGroupLastWins | src/artboard/artboard.tsx:341-343 | each member ends with the size and translation of its last sub-event |
| GroupGestures.RotateMember | src/artboard/artboard.tsx:538-546 | the angle is `beforeRotate`, absolute; the translation is `drag.beforeTranslate`; scale and size kept; only that frame changes |
| GroupGestures.RotateGroup | src/artboard/artboard.tsx:532-547 | frames of non-members unchanged; every member has a frame; only frames change, the tooltip included |
| GroupGestures.RotateGroupKeepsShape | src/artboard/artboard.tsx:538-546 | a group rotate never changes scale or size |
| GroupGestures.RotateGroupLastWins | src/artboard/artboard.tsx:538-546 | each member ends with the angle and translation of its last sub-event, whatever it had before |
| Events.KeyStep | src/artboard/artboard.tsx:196-224 | key events touch only the three flags |
| Events.SelectStep | src/artboard/artboard.tsx:228-309 | selection events touch only the selection and the last-click record |
| Events.MountStep | src/artboard/artboard.tsx:152-170 | mount events touch only the registry and never drop an id |
| Events.SingleStep | src/artboard/artboard.tsx:584-592 | single starts lock; single ends unlock and hide the tooltip; progress keeps the lock; only frames, lock and tooltip change; no frame is dropped |
| Events.GroupStep | src/artboard/artboard.tsx:593-603 | group starts lock; group ends unlock; drag and resize group ends hide the tooltip, the rotate group end leaves it; no frame is dropped |
| Events.StartLocks | src/artboard/artboard.tsx:317-531 | every start, single or group, leaves the lock up |
| Events.EndUnlocks | src/artboard/artboard.tsx:548-553 | every end leaves the lock down, even with no start before; all ends but the group-rotate end hide the tooltip, which that one leaves unchanged |
| Events.OthersKeepLock | src/artboard/artboard.tsx:400-505 | keys, clicks, mounts and progress events never change the lock |
| Events.StepNeverDrops | src/artboard/artboard.tsx:116-166 | no event drops a frame or a registry id |
| Events.SingleLeavesOthersAlone | src/artboard/artboard.tsx:391-510 | a single gesture event changes `getFrame`'s answer only for the element it addresses |
| Events.GroupLeavesOthersAlone | src/artboard/artboard.tsx:317-553 | a group gesture event changes `getFrame`'s answer only for its members |
| Events.StepLeavesOthersAlone | src/artboard/artboard.tsx:317-553 | any event changes `getFrame`'s answer only for the elements its progress sub-events address |
| Events.RunNeverDrops | src/artboard/artboard.tsx:106-166 | over any run of events no frame and no registry id is lost |
| Events.RunLeavesOthersAlone | src/artboard/artboard.tsx:391-553 | an element no progress event of a run addresses ends with the frame it started with |
| Events.LockedUntilEnd | src/artboard/artboard.tsx:383-389 | after a start the lock stays up through any events until an end |
| Events.StepKeepsNoDup | src/artboard/artboard.tsx:238-305 | one event keeps a duplicate-free selection duplicate-free when its list input is |
| Events.RunKeepsNoDup | src/artboard/artboard.tsx:238-305 | a run keeps a duplicate-free selection duplicate-free when every list input is |
| Events.NoStartNoLock | src/artboard/artboard.tsx:383-389 | on an unlocked board a run without start events leaves the lock down |
| Events.FromInitial | src/artboard/artboard.tsx:86-106 | from the freshly mounted state (lock down, empty `frameMap`, no selection) a run keeps the selection duplicate-free under duplicate-free inputs, keeps the lock down until a start, and leaves every unaddressed element at the identity frame |
| Events.RotatesAccumulate | src/artboard/artboard.tsx:497-502 | after single rotate events on one element its angle is the starting angle plus the sum of all `beforeDelta`s |

## Left out

- Rendering and JSX (`renderMoveable`, `renderGuides`, `renderDemo`, `renderContent`, `render`): user interface, no state logic. The gesture options set in `renderMoveable` (`keepRatio` and `throttleRotate` from shift, percentage origin) are consumed by the recogniser and are not modelled.
- `handleRender` and `handleRenderGroup`, and the `cssText` writes in the rotate handlers: they apply `Frame.toCSS()` to the DOM. No render event is part of `Events.Event`, so the `getFrame` call inside `handleRender` is not part of `Run`; it could only add an identity frame for an unseen element, which leaves every `Frames.Current` answer unchanged (`Frames.GetFrame`).
- Tooltip DOM creation and text (`createTooltip`, `innerHTML`, `Math.round`, `toFixed`): presentation. The tooltip is modelled as visible or hidden plus the pointer and scale of its last placement. The board is taken as already mounted, so the tooltip always exists.
- The "px"/"deg" string units, `parseFloat` and scenejs `setAlias`: the frame holds plain numbers. The `|| 0` fallback in the group-rotate start only matters for unparsable strings and so disappears.
- react-moveable calls (`dragStart(event)`, `updateRect`, `setOrigin`) and the `onTargetChange` continuation: side effects on the recogniser.
- `KeyController` wiring, the `ctrl+a` handler (it only logs), the window resize listener and `console.log`: input/output plumbing. Key events are abstract `KeyDown`/`KeyUp` transitions.
- `handleVisibleElementsChange` and the guideline state: they only feed snapping guidelines to the recogniser.
- React `setState` batching and asynchrony, the `setTimeout` deferral in `handleChildMounted`, and the in-place `splice` on `state.target`: every event is applied atomically in order. `state.target` starts as `undefined` in the component; it is modelled as the empty list, which behaves the same in every handler (`|| []`, `length > 1`).
- Numbers are exact reals, not IEEE doubles: rounding, NaN, the infinities and -0 are not modelled. `Events.RotatesAccumulate` holds only in exact arithmetic, the shift test `delta[0] !== 0` never meets NaN, and the `|| 0` fallback of the group-rotate start never fires.
- Registry.ChildMounted: `selectables` starts as a plain object, so in the component an id naming an inherited property (`constructor`, `toString`, `__proto__`) already reads truthy and its mount is ignored; the model's registry is a map with no inherited keys and records such an id like any other.
- `new Date().getTime()`: the click time is a parameter of the select event.
- `src/App.js`: application bootstrap, not part of this model.
