/** The interaction lock (`lockSelector`/`unLockSelector`) and the tooltip
    (`setTooltipContent`/`hideTooltip`). */
module Feedback {
  import opened Common
  import opened ArtBoardState

  /** `lockSelector`: raise the lock; nothing else changes. */
  function LockSelector(b: Board): (r: Board)
    ensures r.hasElementResizing
    ensures r.(hasElementResizing := b.hasElementResizing) == b
  {
    b.(hasElementResizing := true)
  }

  /** `unLockSelector`: drop the lock whatever it was; nothing else changes. */
  function UnlockSelector(b: Board): (r: Board)
    ensures !r.hasElementResizing
    ensures r.(hasElementResizing := b.hasElementResizing) == b
  {
    b.(hasElementResizing := false)
  }

  /** The lock is not counted: any number of acquisitions is undone by one
      release, and a release with no acquisition is harmless. */
  lemma LockNotCounted(b: Board)
    ensures LockSelector(LockSelector(b)) == LockSelector(b)
    ensures UnlockSelector(LockSelector(LockSelector(b))) == UnlockSelector(b)
    ensures UnlockSelector(UnlockSelector(b)) == UnlockSelector(b)
  {
  }

  /** The scale the tooltip divides the pointer by: 1 while several elements
      are selected, the view zoom otherwise. */
  function TooltipScale(target: seq<Element>, viewScale: real): real {
    if |target| > 1 then 1.0 else viewScale
  }

  /** The tooltip's translation `(x / scale + 50, y / scale - 10)`. With a
      zero scale JavaScript would produce a non-finite offset; the model
      gives none. */
  function TooltipOffset(p: Placement): (r: Option<Vec2>)
    ensures r.Some? <==> p.scale != 0.0
    ensures r.Some? ==> (r.value.x - 50.0) * p.scale == p.client.x
    ensures r.Some? ==> (r.value.y + 10.0) * p.scale == p.client.y
  {
    if p.scale == 0.0 then None
    else Some(Vec2(p.client.x / p.scale + 50.0, p.client.y / p.scale - 10.0))
  }

  /** `setTooltipContent`: show the tooltip at the pointer, scaled by the
      current selection's tooltip scale (the text is not modelled). */
  function ShowTooltip(b: Board, client: Vec2): (r: Board)
    ensures r.tooltip.visible
    ensures r.tooltip.placement.Some? && r.tooltip.placement.value.client == client
    ensures |b.target| > 1 ==> r.tooltip.placement.value.scale == 1.0
    ensures |b.target| <= 1 ==> r.tooltip.placement.value.scale == b.viewScale
    ensures r.(tooltip := b.tooltip) == b
  {
    b.(tooltip := Tooltip(true, Some(Placement(client, TooltipScale(b.target, b.viewScale)))))
  }

  /** `hideTooltip`: hide it, keep its last placement; idempotent. */
  function HideTooltip(b: Board): (r: Board)
    ensures !r.tooltip.visible
    ensures r.tooltip.placement == b.tooltip.placement
    ensures r.(tooltip := b.tooltip) == b
  {
    b.(tooltip := b.tooltip.(visible := false))
  }

  /** Hiding is idempotent and keeps the placement, so showing again at the
      same pointer gives back the shown tooltip. */
  lemma ShowHideShow(b: Board, client: Vec2)
    ensures HideTooltip(HideTooltip(b)) == HideTooltip(b)
    ensures ShowTooltip(HideTooltip(ShowTooltip(b, client)), client) == ShowTooltip(b, client)
  {
  }

  /** During a group gesture the tooltip sits at the raw pointer position
      shifted by (50, -10): no zoom is divided out. */
  lemma GroupTooltipUnscaled(b: Board, client: Vec2)
    requires |b.target| > 1
    ensures TooltipOffset(ShowTooltip(b, client).tooltip.placement.value)
            == Some(Vec2(client.x + 50.0, client.y - 10.0))
  {
  }
}
