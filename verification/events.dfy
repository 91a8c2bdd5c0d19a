/** The artboard as one sequential state machine: every handler of the
    component is an event, applied atomically in delivery order. Events are
    grouped by the part of the state they address. */
module Events {
  import opened Common
  import opened Seqs
  import opened Frames
  import opened ArtBoardState
  import K = Keys
  import Reg = Registry
  import Sel = Selection
  import Fb = Feedback
  import G = Gestures
  import GG = GroupGestures

  datatype KeyEvent = KeyDown(downKey: K.Key) | KeyUp(upKey: K.Key)

  datatype SelectEvent =
    | SelectChange(newTarget: Option<Element>, now: int)
    | MultipleSelectChange(elements: seq<Element>)
    | GroupClick(inputTarget: Element, inputClasses: set<string>, groupTargets: seq<Element>)

  datatype MountEvent =
    | ChildMounted(mountedId: string, mountedElement: Option<Element>)
    | ChildUnmounted(unmountedId: string, unmountedElement: Option<Element>)

  datatype SingleEvent =
    | DragStart(dragTarget: Element)
    | Drag(drag: G.DragEvent)
    | DragEnd
    | ResizeStart(resizeStart: G.StartEvent)
    | Resize(resize: G.ResizeEvent)
    | ResizeEnd
    | RotateStart(rotateTarget: Element)
    | Rotate(rotate: G.RotateEvent)
    | RotateEnd

  datatype GroupEvent =
    | DragGroupStart(dragTargets: seq<Element>)
    | DragGroup(drags: seq<G.DragEvent>)
    | DragGroupEnd
    | ResizeGroupStart(resizeStarts: seq<G.StartEvent>)
    | ResizeGroup(resizes: seq<G.ResizeEvent>)
    | ResizeGroupEnd
    | RotateGroupStart(rotateStarts: seq<G.StartEvent>)
    | RotateGroup(rotates: seq<GG.RotateGroupEvent>)
    | RotateGroupEnd

  datatype Event =
    | Key(key: KeyEvent)
    | Select(select: SelectEvent)
    | Mount(mount: MountEvent)
    | Single(single: SingleEvent)
    | Group(group: GroupEvent)

  predicate IsStart(ev: Event) {
    || (ev.Single? && (ev.single.DragStart? || ev.single.ResizeStart? || ev.single.RotateStart?))
    || (ev.Group? && (ev.group.DragGroupStart? || ev.group.ResizeGroupStart? || ev.group.RotateGroupStart?))
  }

  predicate IsEnd(ev: Event) {
    || (ev.Single? && (ev.single.DragEnd? || ev.single.ResizeEnd? || ev.single.RotateEnd?))
    || (ev.Group? && (ev.group.DragGroupEnd? || ev.group.ResizeGroupEnd? || ev.group.RotateGroupEnd?))
  }

  /** The progress event `ev` writes the frame of `t`. */
  predicate Addresses(ev: Event, t: Element) {
    match ev
    case Single(Drag(e)) => e.target == t
    case Single(Resize(e)) => e.target == t
    case Single(Rotate(e)) => e.target == t
    case Group(DragGroup(evs)) => t in GG.DragTargets(evs)
    case Group(ResizeGroup(evs)) => t in GG.ResizeTargets(evs)
    case Group(RotateGroup(evs)) => t in GG.RotateTargets(evs)
    case _ => false
  }

  /** The key handlers registered on the key controller. */
  function KeyStep(b: Board, ev: KeyEvent): (r: Board)
    ensures r.(shiftKey := b.shiftKey, ctrlKey := b.ctrlKey, rKey := b.rKey) == b
  {
    match ev
    case KeyDown(k) => K.KeyDown(b, k)
    case KeyUp(k) => K.KeyUp(b, k)
  }

  /** The selection handlers. */
  function SelectStep(b: Board, ev: SelectEvent): (r: Board)
    ensures r.(target := b.target, lastSelect := b.lastSelect) == b
  {
    match ev
    case SelectChange(t, now) => Sel.SelectChange(b, t, now)
    case MultipleSelectChange(els) => Sel.MultipleSelectChange(b, els)
    case GroupClick(input, classes, targets) => Sel.GroupClick(b, input, classes, targets)
  }

  /** The child mount/unmount callbacks. */
  function MountStep(b: Board, ev: MountEvent): (r: Board)
    ensures b.selectables.Keys <= r.selectables.Keys
    ensures r.(selectables := b.selectables) == b
  {
    match ev
    case ChildMounted(id, el) => Reg.ChildMounted(b, id, el)
    case ChildUnmounted(id, el) => Reg.ChildUnmounted(b, id, el)
  }

  /** The single-target gesture handlers: starts lock, ends unlock and hide
      the tooltip, progress events keep the lock; only frames, lock and
      tooltip change, and frames are never dropped. */
  function SingleStep(b: Board, ev: SingleEvent): (r: Board)
    ensures (ev.DragStart? || ev.ResizeStart? || ev.RotateStart?) ==> r.hasElementResizing
    ensures (ev.DragEnd? || ev.ResizeEnd? || ev.RotateEnd?) ==>
              !r.hasElementResizing && !r.tooltip.visible
    ensures (ev.Drag? || ev.Resize? || ev.Rotate?) ==> r.hasElementResizing == b.hasElementResizing
    ensures b.frames.Keys <= r.frames.Keys
    ensures r.(frames := b.frames, hasElementResizing := b.hasElementResizing, tooltip := b.tooltip) == b
  {
    match ev
    case DragStart(t) => G.DragStart(b, t).board
    case Drag(e) => G.Drag(b, e)
    case DragEnd => G.EndGesture(b)
    case ResizeStart(e) => G.ResizeStart(b, e).board
    case Resize(e) => G.Resize(b, e)
    case ResizeEnd => G.EndGesture(b)
    case RotateStart(t) => G.RotateStart(b, t).board
    case Rotate(e) => G.Rotate(b, e)
    case RotateEnd => G.EndGesture(b)
  }

  /** The group gesture handlers: starts lock, ends unlock, and all ends but
      the group-rotate end hide the tooltip, which that one leaves alone. */
  function GroupStep(b: Board, ev: GroupEvent): (r: Board)
    ensures (ev.DragGroupStart? || ev.ResizeGroupStart? || ev.RotateGroupStart?) ==> r.hasElementResizing
    ensures (ev.DragGroupEnd? || ev.ResizeGroupEnd? || ev.RotateGroupEnd?) ==> !r.hasElementResizing
    ensures (ev.DragGroupEnd? || ev.ResizeGroupEnd?) ==> !r.tooltip.visible
    ensures ev.RotateGroupEnd? ==> r.tooltip == b.tooltip
    ensures (ev.DragGroup? || ev.ResizeGroup? || ev.RotateGroup?) ==> r.hasElementResizing == b.hasElementResizing
    ensures b.frames.Keys <= r.frames.Keys
    ensures r.(frames := b.frames, hasElementResizing := b.hasElementResizing, tooltip := b.tooltip) == b
  {
    match ev
    case DragGroupStart(ts) => GG.DragGroupStart(b, ts).board
    case DragGroup(evs) => GG.DragGroup(b, evs)
    case DragGroupEnd => G.EndGesture(b)
    case ResizeGroupStart(evs) => GG.ResizeGroupStart(b, evs).board
    case ResizeGroup(evs) => GG.ResizeGroup(b, evs)
    case ResizeGroupEnd => G.EndGesture(b)
    case RotateGroupStart(evs) => GG.RotateGroupStart(b, evs).board
    case RotateGroup(evs) => GG.RotateGroup(b, evs)
    case RotateGroupEnd => Fb.UnlockSelector(b)
  }

  /** One event, dispatched to its handler. */
  function Step(b: Board, ev: Event): Board {
    match ev
    case Key(e) => KeyStep(b, e)
    case Select(e) => SelectStep(b, e)
    case Mount(e) => MountStep(b, e)
    case Single(e) => SingleStep(b, e)
    case Group(e) => GroupStep(b, e)
  }

  /** Every start, single or group, raises the lock. */
  lemma StartLocks(b: Board, ev: Event)
    requires IsStart(ev)
    ensures Step(b, ev).hasElementResizing
  {
  }

  /** Every end drops the lock, even without a preceding start; every end
      but the group-rotate end also hides the tooltip, which the group-rotate
      end leaves as it is. */
  lemma EndUnlocks(b: Board, ev: Event)
    requires IsEnd(ev)
    ensures !Step(b, ev).hasElementResizing
    ensures !(ev.Group? && ev.group.RotateGroupEnd?) ==> !Step(b, ev).tooltip.visible
    ensures ev.Group? && ev.group.RotateGroupEnd? ==> Step(b, ev).tooltip == b.tooltip
  {
  }

  /** Keys, clicks, registry updates and progress events leave the lock alone. */
  lemma OthersKeepLock(b: Board, ev: Event)
    requires !IsStart(ev) && !IsEnd(ev)
    ensures Step(b, ev).hasElementResizing == b.hasElementResizing
  {
  }

  /** No event drops a frame or a registry entry. */
  lemma StepNeverDrops(b: Board, ev: Event)
    ensures b.frames.Keys <= Step(b, ev).frames.Keys
    ensures b.selectables.Keys <= Step(b, ev).selectables.Keys
  {
  }

  lemma SingleLeavesOthersAlone(b: Board, ev: SingleEvent, t: Element)
    requires !Addresses(Single(ev), t)
    ensures Current(SingleStep(b, ev).frames, t) == Current(b.frames, t)
  {
    match ev
    case DragStart(e) =>
    case ResizeStart(e) =>
    case RotateStart(e) =>
    case _ =>
  }

  lemma GroupLeavesOthersAlone(b: Board, ev: GroupEvent, t: Element)
    requires !Addresses(Group(ev), t)
    ensures Current(GroupStep(b, ev).frames, t) == Current(b.frames, t)
  {
    match ev
    case DragGroupStart(ts) =>
    case ResizeGroupStart(evs) =>
    case RotateGroupStart(evs) =>
    case _ =>
  }

  /** An event changes the frame `getFrame` gives only for the elements its
      progress sub-events address. */
  lemma StepLeavesOthersAlone(b: Board, ev: Event, t: Element)
    requires !Addresses(ev, t)
    ensures Current(Step(b, ev).frames, t) == Current(b.frames, t)
  {
    match ev
    case Single(e) => SingleLeavesOthersAlone(b, e, t);
    case Group(e) => GroupLeavesOthersAlone(b, e, t);
    case _ =>
  }

  /** A run of events, applied in delivery order. */
  function Run(b: Board, evs: seq<Event>): Board
    decreases |evs|
  {
    if |evs| == 0 then b else Step(Run(b, evs[..|evs| - 1]), evs[|evs| - 1])
  }

  /** Frames and registry entries are never dropped by any run of events. */
  lemma {:induction false} RunNeverDrops(b: Board, evs: seq<Event>)
    ensures b.frames.Keys <= Run(b, evs).frames.Keys
    ensures b.selectables.Keys <= Run(b, evs).selectables.Keys
    decreases |evs|
  {
    if |evs| > 0 {
      RunNeverDrops(b, evs[..|evs| - 1]);
      StepNeverDrops(Run(b, evs[..|evs| - 1]), evs[|evs| - 1]);
    }
  }

  /** An element no progress event of the run addresses keeps the frame
      `getFrame` gives it. */
  lemma {:induction false} RunLeavesOthersAlone(b: Board, evs: seq<Event>, t: Element)
    requires forall i :: 0 <= i < |evs| ==> !Addresses(evs[i], t)
    ensures Current(Run(b, evs).frames, t) == Current(b.frames, t)
    decreases |evs|
  {
    if |evs| > 0 {
      RunLeavesOthersAlone(b, evs[..|evs| - 1], t);
      StepLeavesOthersAlone(Run(b, evs[..|evs| - 1]), evs[|evs| - 1], t);
    }
  }

  /** After a start the lock stays up until an end arrives, whatever keys,
      clicks, further starts and progress events come in between. */
  lemma {:induction false} LockedUntilEnd(b: Board, evs: seq<Event>)
    requires |evs| > 0 && IsStart(evs[0])
    requires forall i :: 0 < i < |evs| ==> !IsEnd(evs[i])
    ensures Run(b, evs).hasElementResizing
    decreases |evs|
  {
    if |evs| > 1 {
      LockedUntilEnd(b, evs[..|evs| - 1]);
      if IsStart(evs[|evs| - 1]) {
        StartLocks(Run(b, evs[..|evs| - 1]), evs[|evs| - 1]);
      } else {
        OthersKeepLock(Run(b, evs[..|evs| - 1]), evs[|evs| - 1]);
      }
    } else {
      StartLocks(b, evs[0]);
    }
  }

  /** The events that hand the board a whole selection list do not repeat
      an element. */
  predicate SelectionInputDupFree(ev: Event) {
    match ev
    case Select(MultipleSelectChange(els)) => NoDup(els)
    case Select(GroupClick(_, _, targets)) => NoDup(targets)
    case _ => true
  }

  lemma StepKeepsNoDup(b: Board, ev: Event)
    requires NoDup(b.target) && SelectionInputDupFree(ev)
    ensures NoDup(Step(b, ev).target)
  {
    match ev
    case Select(SelectChange(t, now)) => Sel.SelectChangeKeepsNoDup(b, t, now);
    case Select(GroupClick(input, classes, targets)) =>
      if IsWrapper(classes) && b.ctrlKey { Sel.GroupClickToggles(b, input, classes, targets); }
    case _ =>
  }

  /** A duplicate-free selection stays duplicate-free through any run whose
      list-valued selection events are duplicate-free. */
  lemma {:induction false} RunKeepsNoDup(b: Board, evs: seq<Event>)
    requires NoDup(b.target)
    requires forall i :: 0 <= i < |evs| ==> SelectionInputDupFree(evs[i])
    ensures NoDup(Run(b, evs).target)
    decreases |evs|
  {
    if |evs| > 0 {
      RunKeepsNoDup(b, evs[..|evs| - 1]);
      StepKeepsNoDup(Run(b, evs[..|evs| - 1]), evs[|evs| - 1]);
    }
  }

  /** A run without start events never raises the lock on an unlocked board. */
  lemma {:induction false} NoStartNoLock(b: Board, evs: seq<Event>)
    requires !b.hasElementResizing
    requires forall i :: 0 <= i < |evs| ==> !IsStart(evs[i])
    ensures !Run(b, evs).hasElementResizing
    decreases |evs|
  {
    if |evs| > 0 {
      NoStartNoLock(b, evs[..|evs| - 1]);
      var last := evs[|evs| - 1];
      if IsEnd(last) {
        EndUnlocks(Run(b, evs[..|evs| - 1]), last);
      } else {
        OthersKeepLock(Run(b, evs[..|evs| - 1]), last);
      }
    }
  }

  /** From the freshly mounted component: the selection stays duplicate-free
      under duplicate-free selection inputs, the lock stays down until a
      start arrives, and only addressed elements get a non-identity frame. */
  lemma FromInitial(viewScale: real, evs: seq<Event>, t: Element)
    requires forall i :: 0 <= i < |evs| ==> SelectionInputDupFree(evs[i])
    ensures NoDup(Run(Initial(viewScale), evs).target)
    ensures (forall i :: 0 <= i < |evs| ==> !IsStart(evs[i])) ==>
              !Run(Initial(viewScale), evs).hasElementResizing
    ensures (forall i :: 0 <= i < |evs| ==> !Addresses(evs[i], t)) ==>
              Current(Run(Initial(viewScale), evs).frames, t) == IdentityFrame
  {
    RunKeepsNoDup(Initial(viewScale), evs);
    if forall i :: 0 <= i < |evs| ==> !IsStart(evs[i]) {
      NoStartNoLock(Initial(viewScale), evs);
    }
    if forall i :: 0 <= i < |evs| ==> !Addresses(evs[i], t) {
      RunLeavesOthersAlone(Initial(viewScale), evs, t);
    }
  }

  /** The run is a sequence of single rotate events on `t`. */
  predicate RotatesOf(evs: seq<Event>, t: Element) {
    forall i :: 0 <= i < |evs| ==>
      evs[i].Single? && evs[i].single.Rotate? && evs[i].single.rotate.target == t
  }

  function SumDeltas(evs: seq<Event>): real
    requires forall i :: 0 <= i < |evs| ==> evs[i].Single? && evs[i].single.Rotate?
    decreases |evs|
  {
    if |evs| == 0 then 0.0
    else SumDeltas(evs[..|evs| - 1]) + evs[|evs| - 1].single.rotate.beforeDelta
  }

  /** Single rotate events add up: the final angle is the angle before the
      run plus the sum of every event's `beforeDelta`. */
  lemma {:induction false} RotatesAccumulate(b: Board, evs: seq<Event>, t: Element)
    requires RotatesOf(evs, t)
    ensures Current(Run(b, evs).frames, t).rotate == Current(b.frames, t).rotate + SumDeltas(evs)
    decreases |evs|
  {
    if |evs| > 0 {
      assert RotatesOf(evs[..|evs| - 1], t);
      RotatesAccumulate(b, evs[..|evs| - 1], t);
    }
  }
}
