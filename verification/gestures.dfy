/** Single-target gesture handlers: drag, resize and rotate, each with a
    start, a progress and an end event. Every progress event commits to the
    frame store at once. */
module Gestures {
  import opened Common
  import opened Frames
  import opened ArtBoardState
  import opened Feedback

  /** What a start handler produces: the board, and the baseline it hands the
      recogniser through `set(...)`. */
  datatype Started<S> = Started(board: Board, seed: S)

  datatype DragEvent = DragEvent(
    target: Element, beforeTranslate: Vec2, delta: Vec2, client: Vec2, isPinch: bool)

  /** A resize-start or group-rotate-start sub-event; `hasDragStart` says
      whether the recogniser passed a `dragStart` hook. */
  datatype StartEvent = StartEvent(target: Element, hasDragStart: bool)

  /** `dragBeforeTranslate` is the resize event's `drag.beforeTranslate`. */
  datatype ResizeEvent = ResizeEvent(
    target: Element, width: real, height: real, dragBeforeTranslate: Vec2,
    client: Vec2, isPinch: bool)

  datatype RotateEvent = RotateEvent(
    target: Element, beforeDelta: real, client: Vec2, isPinch: bool)

  /** The board after a progress handler wrote the frame of `el`: the store
      changed at `el` only, and only frames and tooltip may differ from `b`. */
  ghost predicate WroteFrameOf(b: Board, r: Board, el: Element) {
    && el in r.frames
    && AgreeOutside(b.frames, r.frames, {el})
    && r.(frames := b.frames, tooltip := b.tooltip) == b
  }

  /** A progress handler's tooltip: shown at the pointer unless the gesture is
      a pinch, in which case it is left alone. */
  ghost predicate TooltipFollows(b: Board, r: Board, client: Vec2, isPinch: bool) {
    if isPinch then r.tooltip == b.tooltip
    else r.tooltip == Tooltip(true, Some(Placement(client, TooltipScale(b.target, b.viewScale))))
  }

  /** Show the tooltip unless the event is a pinch. */
  function Report(b: Board, client: Vec2, isPinch: bool): Board {
    if isPinch then b else ShowTooltip(b, client)
  }

  /** `getFrame` for a start handler: the lock goes up and the frame of
      `target` exists afterwards, unchanged if it existed. */
  function Begin(b: Board, target: Element): (r: Board)
    ensures r.hasElementResizing
    ensures target in r.frames && r.frames[target] == Current(b.frames, target)
    ensures AgreeOutside(b.frames, r.frames, {target})
    ensures Materialized(b.frames, r.frames, {target})
    ensures r.(frames := b.frames, hasElementResizing := b.hasElementResizing) == b
  {
    LockSelector(b).(frames := GetFrame(b.frames, target).store)
  }

  /** `handleDragStart`: lock, and seed the recogniser with the stored
      translation (zero for an element without a frame). */
  function DragStart(b: Board, target: Element): (r: Started<Vec2>)
    ensures r.board == Begin(b, target)
    ensures var f := r.board.frames[target]; r.seed == Vec2(f.translateX, f.translateY)
    ensures target !in b.frames ==> r.seed == Vec2(0.0, 0.0)
  {
    var f := GetFrame(b.frames, target).frame;
    Started(Begin(b, target), Vec2(f.translateX, f.translateY))
  }

  /** `handleDrag`. With shift held the axis is chosen X first: X moves when
      its delta is non-zero, otherwise Y moves when its delta is non-zero,
      otherwise nothing moves. Without shift both axes take the recogniser's
      translation. Rotation, scale and size are never touched. */
  function Drag(b: Board, e: DragEvent): (r: Board)
    ensures WroteFrameOf(b, r, e.target)
    ensures TooltipFollows(b, r, e.client, e.isPinch)
    ensures var f0 := Current(b.frames, e.target); var f := r.frames[e.target];
            && f.rotate == f0.rotate && f.scaleX == f0.scaleX && f.scaleY == f0.scaleY
            && f.width == f0.width && f.height == f0.height
            && (!b.shiftKey ==>
                  f.translateX == e.beforeTranslate.x && f.translateY == e.beforeTranslate.y)
            && (b.shiftKey && e.delta.x != 0.0 ==>
                  f.translateX == e.beforeTranslate.x && f.translateY == f0.translateY)
            && (b.shiftKey && e.delta.x == 0.0 && e.delta.y != 0.0 ==>
                  f.translateX == f0.translateX && f.translateY == e.beforeTranslate.y)
            && (b.shiftKey && e.delta == Vec2(0.0, 0.0) ==> f == f0)
            && (b.shiftKey ==> f.translateX == f0.translateX || f.translateY == f0.translateY)
  {
    var f := Current(b.frames, e.target);
    var moved :=
      if b.shiftKey then
        if e.delta.x != 0.0 then f.(translateX := e.beforeTranslate.x)
        else if e.delta.y != 0.0 then f.(translateY := e.beforeTranslate.y)
        else f
      else f.(translateX := e.beforeTranslate.x, translateY := e.beforeTranslate.y);
    Report(b.(frames := b.frames[e.target := moved]), e.client, e.isPinch)
  }

  /** `handleResizeStart`: lock, and seed the drag part of the recogniser
      with the stored translation when it offers a hook. */
  function ResizeStart(b: Board, e: StartEvent): (r: Started<Option<Vec2>>)
    ensures r.board == Begin(b, e.target)
    ensures r.seed.Some? <==> e.hasDragStart
    ensures var f := r.board.frames[e.target];
            r.seed.Some? ==> r.seed.value == Vec2(f.translateX, f.translateY)
  {
    var f := GetFrame(b.frames, e.target).frame;
    Started(Begin(b, e.target),
            if e.hasDragStart then Some(Vec2(f.translateX, f.translateY)) else None)
  }

  /** `handleResize`: width, height and both translations are written
      together; rotation and scale are kept. */
  function Resize(b: Board, e: ResizeEvent): (r: Board)
    ensures WroteFrameOf(b, r, e.target)
    ensures TooltipFollows(b, r, e.client, e.isPinch)
    ensures var f0 := Current(b.frames, e.target); var f := r.frames[e.target];
            && f.width == Some(e.width) && f.height == Some(e.height)
            && f.translateX == e.dragBeforeTranslate.x && f.translateY == e.dragBeforeTranslate.y
            && f.rotate == f0.rotate && f.scaleX == f0.scaleX && f.scaleY == f0.scaleY
  {
    var f := Current(b.frames, e.target);
    var sized := f.(width := Some(e.width), height := Some(e.height),
                    translateX := e.dragBeforeTranslate.x,
                    translateY := e.dragBeforeTranslate.y);
    Report(b.(frames := b.frames[e.target := sized]), e.client, e.isPinch)
  }

  /** `handleRotateStart`: lock, and seed the recogniser with the stored angle. */
  function RotateStart(b: Board, target: Element): (r: Started<real>)
    ensures r.board == Begin(b, target)
    ensures r.seed == r.board.frames[target].rotate
    ensures target !in b.frames ==> r.seed == 0.0
  {
    Started(Begin(b, target), GetFrame(b.frames, target).frame.rotate)
  }

  /** `handleRotate`: the new angle is the STORED angle plus `beforeDelta`,
      so successive events of one gesture add up. Translation, scale and
      size are kept. */
  function Rotate(b: Board, e: RotateEvent): (r: Board)
    ensures WroteFrameOf(b, r, e.target)
    ensures TooltipFollows(b, r, e.client, e.isPinch)
    ensures var f0 := Current(b.frames, e.target); var f := r.frames[e.target];
            && f.rotate - f0.rotate == e.beforeDelta
            && f.translateX == f0.translateX && f.translateY == f0.translateY
            && f.scaleX == f0.scaleX && f.scaleY == f0.scaleY
            && f.width == f0.width && f.height == f0.height
  {
    var f := Current(b.frames, e.target);
    var turned := f.(rotate := f.rotate + e.beforeDelta);
    Report(b.(frames := b.frames[e.target := turned]), e.client, e.isPinch)
  }

  /** The end of a drag, a resize or a rotate (single or group, except the
      group rotate): release the lock and hide the tooltip. Safe without a
      preceding start. */
  function EndGesture(b: Board): (r: Board)
    ensures !r.hasElementResizing
    ensures !r.tooltip.visible && r.tooltip.placement == b.tooltip.placement
    ensures r.(hasElementResizing := b.hasElementResizing, tooltip := b.tooltip) == b
  {
    HideTooltip(UnlockSelector(b))
  }

  /** Ending twice is ending once: an end without a matching start cannot
      leave the lock held or the tooltip shown. */
  lemma EndGestureIdempotent(b: Board)
    ensures EndGesture(EndGesture(b)) == EndGesture(b)
  {
  }

  /** Drag and resize write absolute values, so replaying the same event
      changes nothing more; a rotate event replayed turns the element again. */
  lemma AbsoluteWritesIdempotent(b: Board, d: DragEvent, z: ResizeEvent)
    ensures Drag(Drag(b, d), d) == Drag(b, d)
    ensures Resize(Resize(b, z), z) == Resize(b, z)
  {
  }

  /** Default frame, baseline (0, 0), no shift, `beforeTranslate = (15, -4)`:
      the frame ends at translation (15, -4). */
  lemma DragScenario(b: Board, el: Element, client: Vec2)
    requires el !in b.frames && !b.shiftKey
    ensures var s := DragStart(b, el);
            s.seed == Vec2(0.0, 0.0)
            && Drag(s.board, DragEvent(el, Vec2(15.0, -4.0), Vec2(15.0, -4.0), client, false))
                 .frames[el] == IdentityFrame.(translateX := 15.0, translateY := -4.0)
  {
  }

  /** Committed angle 10, `beforeDelta` 25 then 40: the frame reads 35 and
      then 75, because the code adds each delta to the stored angle. */
  lemma RotateScenario(b: Board, el: Element, client: Vec2)
    requires el in b.frames && b.frames[el].rotate == 10.0
    ensures var b1 := Rotate(b, RotateEvent(el, 25.0, client, false));
            var b2 := Rotate(b1, RotateEvent(el, 40.0, client, false));
            b1.frames[el].rotate == 35.0 && b2.frames[el].rotate == 75.0
  {
  }
}
