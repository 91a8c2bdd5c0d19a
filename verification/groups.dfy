/** Group gesture handlers. A group event carries one sub-event per member;
    the handlers fan them out, in order, to the single-target logic. The
    lock is raised once up front for the whole group. Each fan-out is
    written as "all but the last sub-event, then the last one", which is the
    same left-to-right order as `events.forEach`. */
module GroupGestures {
  import opened Common
  import opened Frames
  import opened ArtBoardState
  import opened Feedback
  import opened Gestures

  /** What a group-rotate start hands the recogniser for one member: the
      stored angle and, when asked, the stored translation. */
  datatype RotateSeed = RotateSeed(angle: real, drag: Option<Vec2>)

  /** A group-rotate progress sub-event: the member's absolute angle and its
      `drag.beforeTranslate`. */
  datatype RotateGroupEvent = RotateGroupEvent(
    target: Element, beforeRotate: real, dragBeforeTranslate: Vec2)

  // ----- the members a group event addresses -----

  function Members(targets: seq<Element>): set<Element>
    decreases |targets|
  {
    if |targets| == 0 then {} else Members(targets[..|targets| - 1]) + {targets[|targets| - 1]}
  }

  function StartTargets(evs: seq<StartEvent>): set<Element>
    decreases |evs|
  {
    if |evs| == 0 then {} else StartTargets(evs[..|evs| - 1]) + {evs[|evs| - 1].target}
  }

  function DragTargets(evs: seq<DragEvent>): set<Element>
    decreases |evs|
  {
    if |evs| == 0 then {} else DragTargets(evs[..|evs| - 1]) + {evs[|evs| - 1].target}
  }

  function ResizeTargets(evs: seq<ResizeEvent>): set<Element>
    decreases |evs|
  {
    if |evs| == 0 then {} else ResizeTargets(evs[..|evs| - 1]) + {evs[|evs| - 1].target}
  }

  function RotateTargets(evs: seq<RotateGroupEvent>): set<Element>
    decreases |evs|
  {
    if |evs| == 0 then {} else RotateTargets(evs[..|evs| - 1]) + {evs[|evs| - 1].target}
  }

  /** Sub-event `i` is the last one addressing its member. */
  ghost predicate LastDrag(evs: seq<DragEvent>, i: nat) {
    i < |evs| && forall j :: i < j < |evs| ==> evs[j].target != evs[i].target
  }

  ghost predicate LastResize(evs: seq<ResizeEvent>, i: nat) {
    i < |evs| && forall j :: i < j < |evs| ==> evs[j].target != evs[i].target
  }

  ghost predicate LastRotate(evs: seq<RotateGroupEvent>, i: nat) {
    i < |evs| && forall j :: i < j < |evs| ==> evs[j].target != evs[i].target
  }

  /** The board after a group start over `ks`: locked, a frame exists for
      every member, no element's frame as `getFrame` sees it has changed,
      and nothing else differs. */
  ghost predicate Opened(b: Board, r: Board, ks: set<Element>) {
    && r.hasElementResizing
    && Materialized(b.frames, r.frames, ks)
    && r.(frames := b.frames, hasElementResizing := b.hasElementResizing) == b
  }

  // ----- starts -----

  /** `events.forEach(handleDragStart)` on a locked board. */
  function DragStartEach(b: Board, targets: seq<Element>): (r: Started<seq<Vec2>>)
    requires b.hasElementResizing
    ensures Opened(b, r.board, Members(targets))
    ensures |r.seed| == |targets|
    ensures forall i :: 0 <= i < |targets| ==>
              r.seed[i] == Vec2(Current(b.frames, targets[i]).translateX,
                                Current(b.frames, targets[i]).translateY)
    decreases |targets|
  {
    if |targets| == 0 then Started(b, [])
    else
      var prev := DragStartEach(b, targets[..|targets| - 1]);
      var t := targets[|targets| - 1];
      var s := DragStart(prev.board, t);
      assert Current(prev.board.frames, t) == Current(b.frames, t);
      Started(s.board, prev.seed + [s.seed])
  }

  /** `handleDragGroupStart`: lock, then seed every member from its stored
      translation. */
  function DragGroupStart(b: Board, targets: seq<Element>): (r: Started<seq<Vec2>>)
    ensures Opened(b, r.board, Members(targets))
    ensures |r.seed| == |targets|
    ensures forall i :: 0 <= i < |targets| ==>
              r.seed[i] == Vec2(Current(b.frames, targets[i]).translateX,
                                Current(b.frames, targets[i]).translateY)
  {
    DragStartEach(LockSelector(b), targets)
  }

  /** `events.forEach(handleResizeStart)` on a locked board. */
  function ResizeStartEach(b: Board, evs: seq<StartEvent>): (r: Started<seq<Option<Vec2>>>)
    requires b.hasElementResizing
    ensures Opened(b, r.board, StartTargets(evs))
    ensures |r.seed| == |evs|
    ensures forall i :: 0 <= i < |evs| ==>
              (r.seed[i].Some? <==> evs[i].hasDragStart)
              && (r.seed[i].Some? ==>
                    r.seed[i].value == Vec2(Current(b.frames, evs[i].target).translateX,
                                            Current(b.frames, evs[i].target).translateY))
    decreases |evs|
  {
    if |evs| == 0 then Started(b, [])
    else
      var prev := ResizeStartEach(b, evs[..|evs| - 1]);
      var e := evs[|evs| - 1];
      var s := ResizeStart(prev.board, e);
      assert Current(prev.board.frames, e.target) == Current(b.frames, e.target);
      Started(s.board, prev.seed + [s.seed])
  }

  /** `handleResizeGroupStart`: lock, then start every member. */
  function ResizeGroupStart(b: Board, evs: seq<StartEvent>): (r: Started<seq<Option<Vec2>>>)
    ensures Opened(b, r.board, StartTargets(evs))
    ensures |r.seed| == |evs|
    ensures forall i :: 0 <= i < |evs| ==>
              (r.seed[i].Some? <==> evs[i].hasDragStart)
              && (r.seed[i].Some? ==>
                    r.seed[i].value == Vec2(Current(b.frames, evs[i].target).translateX,
                                            Current(b.frames, evs[i].target).translateY))
  {
    ResizeStartEach(LockSelector(b), evs)
  }

  /** One member of `handleRotateGroupStart`: `getFrame`, then the seeds. */
  function RotateStartMember(b: Board, e: StartEvent): (r: Started<RotateSeed>)
    ensures Materialized(b.frames, r.board.frames, {e.target})
    ensures r.board.(frames := b.frames) == b
    ensures var f := Current(b.frames, e.target);
            r.seed.angle == f.rotate
            && (r.seed.drag.Some? <==> e.hasDragStart)
            && (r.seed.drag.Some? ==> r.seed.drag.value == Vec2(f.translateX, f.translateY))
  {
    var f := GetFrame(b.frames, e.target).frame;
    Started(b.(frames := GetFrame(b.frames, e.target).store),
            RotateSeed(f.rotate, if e.hasDragStart then Some(Vec2(f.translateX, f.translateY)) else None))
  }

  function RotateStartEach(b: Board, evs: seq<StartEvent>): (r: Started<seq<RotateSeed>>)
    requires b.hasElementResizing
    ensures Opened(b, r.board, StartTargets(evs))
    ensures |r.seed| == |evs|
    ensures forall i :: 0 <= i < |evs| ==>
              var f := Current(b.frames, evs[i].target);
              r.seed[i].angle == f.rotate
              && (r.seed[i].drag.Some? <==> evs[i].hasDragStart)
              && (r.seed[i].drag.Some? ==> r.seed[i].drag.value == Vec2(f.translateX, f.translateY))
    decreases |evs|
  {
    if |evs| == 0 then Started(b, [])
    else
      var prev := RotateStartEach(b, evs[..|evs| - 1]);
      var e := evs[|evs| - 1];
      var s := RotateStartMember(prev.board, e);
      assert Current(prev.board.frames, e.target) == Current(b.frames, e.target);
      Started(s.board, prev.seed + [s.seed])
  }

  /** `handleRotateGroupStart`: lock once, then seed every member with its
      stored angle and, when asked, its stored translation. */
  function RotateGroupStart(b: Board, evs: seq<StartEvent>): (r: Started<seq<RotateSeed>>)
    ensures Opened(b, r.board, StartTargets(evs))
    ensures |r.seed| == |evs|
    ensures forall i :: 0 <= i < |evs| ==>
              var f := Current(b.frames, evs[i].target);
              r.seed[i].angle == f.rotate
              && (r.seed[i].drag.Some? <==> evs[i].hasDragStart)
              && (r.seed[i].drag.Some? ==> r.seed[i].drag.value == Vec2(f.translateX, f.translateY))
  {
    RotateStartEach(LockSelector(b), evs)
  }

  /** A group start seeds each member exactly as a single start on that
      member alone would. */
  lemma GroupSeedsMatchSingle(b: Board, targets: seq<Element>, evs: seq<StartEvent>)
    ensures forall i :: 0 <= i < |targets| ==>
              DragGroupStart(b, targets).seed[i] == DragStart(b, targets[i]).seed
    ensures forall i :: 0 <= i < |evs| ==>
              ResizeGroupStart(b, evs).seed[i] == ResizeStart(b, evs[i]).seed
    ensures forall i :: 0 <= i < |evs| ==>
              RotateGroupStart(b, evs).seed[i].angle == RotateStart(b, evs[i].target).seed
  {
  }

  // ----- progress -----

  /** `handleDragGroup`: every member event goes through `handleDrag`, in
      order. Only the members' frames change. */
  function DragGroup(b: Board, evs: seq<DragEvent>): (r: Board)
    ensures AgreeOutside(b.frames, r.frames, DragTargets(evs))
    ensures DragTargets(evs) <= r.frames.Keys
    ensures r.(frames := b.frames, tooltip := b.tooltip) == b
    ensures (forall i :: 0 <= i < |evs| ==> evs[i].isPinch) ==> r.tooltip == b.tooltip
    ensures (exists i :: 0 <= i < |evs| && !evs[i].isPinch) ==> r.tooltip.visible
    decreases |evs|
  {
    if |evs| == 0 then b
    else Drag(DragGroup(b, evs[..|evs| - 1]), evs[|evs| - 1])
  }

  /** A group drag changes translations only. */
  lemma {:induction false} DragGroupKeepsPose(b: Board, evs: seq<DragEvent>, t: Element)
    ensures OnlyTranslated(Current(b.frames, t), Current(DragGroup(b, evs).frames, t))
    decreases |evs|
  {
    if |evs| > 0 {
      var prefix, last := evs[..|evs| - 1], evs[|evs| - 1];
      var mid := DragGroup(b, prefix);
      DragGroupKeepsPose(b, prefix, t);
      if t != last.target {
        assert Current(DragGroup(b, evs).frames, t) == Current(mid.frames, t);
      }
    }
  }

  /** Without shift each member ends at the translation of its last event. */
  lemma {:induction false} DragGroupLastWins(b: Board, evs: seq<DragEvent>, i: nat)
    requires !b.shiftKey && LastDrag(evs, i)
    ensures var f := Current(DragGroup(b, evs).frames, evs[i].target);
            f.translateX == evs[i].beforeTranslate.x && f.translateY == evs[i].beforeTranslate.y
    decreases |evs|
  {
    var prefix, last := evs[..|evs| - 1], evs[|evs| - 1];
    if i < |evs| - 1 {
      assert LastDrag(prefix, i);
      DragGroupLastWins(b, prefix, i);
      assert last.target != evs[i].target;
    }
  }

  /** `handleResizeGroup`: every member event goes through `handleResize`,
      in order. Only the members' frames change. */
  function ResizeGroup(b: Board, evs: seq<ResizeEvent>): (r: Board)
    ensures AgreeOutside(b.frames, r.frames, ResizeTargets(evs))
    ensures ResizeTargets(evs) <= r.frames.Keys
    ensures r.(frames := b.frames, tooltip := b.tooltip) == b
    ensures (forall i :: 0 <= i < |evs| ==> evs[i].isPinch) ==> r.tooltip == b.tooltip
    ensures (exists i :: 0 <= i < |evs| && !evs[i].isPinch) ==> r.tooltip.visible
    decreases |evs|
  {
    if |evs| == 0 then b
    else Resize(ResizeGroup(b, evs[..|evs| - 1]), evs[|evs| - 1])
  }

  /** A group resize changes sizes and translations only. */
  lemma {:induction false} ResizeGroupKeepsPose(b: Board, evs: seq<ResizeEvent>, t: Element)
    ensures OnlyResized(Current(b.frames, t), Current(ResizeGroup(b, evs).frames, t))
    decreases |evs|
  {
    if |evs| > 0 {
      var prefix, last := evs[..|evs| - 1], evs[|evs| - 1];
      var mid := ResizeGroup(b, prefix);
      ResizeGroupKeepsPose(b, prefix, t);
      if t != last.target {
        assert Current(ResizeGroup(b, evs).frames, t) == Current(mid.frames, t);
      }
    }
  }

  /** Each member ends with the size and translation of its last event. */
  lemma {:induction false} ResizeGroupLastWins(b: Board, evs: seq<ResizeEvent>, i: nat)
    requires LastResize(evs, i)
    ensures var f := Current(ResizeGroup(b, evs).frames, evs[i].target);
            && f.width == Some(evs[i].width) && f.height == Some(evs[i].height)
            && f.translateX == evs[i].dragBeforeTranslate.x
            && f.translateY == evs[i].dragBeforeTranslate.y
    decreases |evs|
  {
    var prefix, last := evs[..|evs| - 1], evs[|evs| - 1];
    if i < |evs| - 1 {
      assert LastResize(prefix, i);
      ResizeGroupLastWins(b, prefix, i);
      assert last.target != evs[i].target;
    }
  }

  /** One member of `handleRotateGroup`: the angle is written ABSOLUTELY
      from `beforeRotate`, the translation from `drag.beforeTranslate`. */
  function RotateMember(b: Board, e: RotateGroupEvent): (r: Board)
    ensures e.target in r.frames && AgreeOutside(b.frames, r.frames, {e.target})
    ensures r.(frames := b.frames) == b
    ensures var f := r.frames[e.target];
            && OnlyTurned(Current(b.frames, e.target), f)
            && f.rotate == e.beforeRotate
            && f.translateX == e.dragBeforeTranslate.x && f.translateY == e.dragBeforeTranslate.y
  {
    var f := Current(b.frames, e.target);
    var placed := f.(rotate := e.beforeRotate,
                     translateX := e.dragBeforeTranslate.x,
                     translateY := e.dragBeforeTranslate.y);
    b.(frames := b.frames[e.target := placed])
  }

  /** `handleRotateGroup`: every member event is applied in order; no other
      element's frame changes and the tooltip is not touched. */
  function RotateGroup(b: Board, evs: seq<RotateGroupEvent>): (r: Board)
    ensures AgreeOutside(b.frames, r.frames, RotateTargets(evs))
    ensures RotateTargets(evs) <= r.frames.Keys
    ensures r.(frames := b.frames) == b
    decreases |evs|
  {
    if |evs| == 0 then b
    else RotateMember(RotateGroup(b, evs[..|evs| - 1]), evs[|evs| - 1])
  }

  /** A group rotate changes angles and translations only. */
  lemma {:induction false} RotateGroupKeepsShape(b: Board, evs: seq<RotateGroupEvent>, t: Element)
    ensures OnlyTurned(Current(b.frames, t), Current(RotateGroup(b, evs).frames, t))
    decreases |evs|
  {
    if |evs| > 0 {
      var prefix, last := evs[..|evs| - 1], evs[|evs| - 1];
      var mid := RotateGroup(b, prefix);
      RotateGroupKeepsShape(b, prefix, t);
      if t != last.target {
        assert Current(RotateGroup(b, evs).frames, t) == Current(mid.frames, t);
      }
    }
  }

  /** Each member ends with the angle and translation of its last event,
      whatever angle it had before. */
  lemma {:induction false} RotateGroupLastWins(b: Board, evs: seq<RotateGroupEvent>, i: nat)
    requires LastRotate(evs, i)
    ensures var f := Current(RotateGroup(b, evs).frames, evs[i].target);
            && f.rotate == evs[i].beforeRotate
            && f.translateX == evs[i].dragBeforeTranslate.x
            && f.translateY == evs[i].dragBeforeTranslate.y
    decreases |evs|
  {
    var prefix, last := evs[..|evs| - 1], evs[|evs| - 1];
    if i < |evs| - 1 {
      assert LastRotate(prefix, i);
      RotateGroupLastWins(b, prefix, i);
      assert last.target != evs[i].target;
    }
  }
}
