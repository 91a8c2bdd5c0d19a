/** The selection `state.target` and the three handlers that change it:
    `handleSelectChange`, `handleMultipleSelectChange`, `handleGroupClick`. */
module Selection {
  import opened Common
  import opened Seqs
  import opened ArtBoardState

  /** `handleSelectChange`: a single click reported by the drag-select
      collaborator at time `now`. No target clears the selection; with ctrl
      the clicked element is toggled; without ctrl an unselected element
      becomes the whole selection and a selected one leaves it as it is. */
  function SelectChange(b: Board, newTarget: Option<Element>, now: int): (r: Board)
    ensures r.lastSelect == LastSelect(now, newTarget)
    ensures r.(target := b.target, lastSelect := b.lastSelect) == b
    ensures newTarget.None? ==> r.target == []
    ensures newTarget.Some? && newTarget.value !in b.target && b.ctrlKey ==>
              r.target == b.target + [newTarget.value]
    ensures newTarget.Some? && newTarget.value !in b.target && !b.ctrlKey ==>
              r.target == [newTarget.value]
    ensures newTarget.Some? && newTarget.value in b.target && !b.ctrlKey ==>
              r.target == b.target
    ensures newTarget.Some? && newTarget.value in b.target && b.ctrlKey ==>
              var i := IndexOf(b.target, newTarget.value);
              r.target == b.target[..i] + b.target[i + 1..]
              && multiset(r.target) == multiset(b.target) - multiset{newTarget.value}
  {
    var next :=
      match newTarget
      case None => []
      case Some(t) =>
        if b.ctrlKey then Toggle(b.target, t)
        else if t in b.target then b.target
        else [t];
    b.(lastSelect := LastSelect(now, newTarget), target := next)
  }

  /** A single click keeps a duplicate-free selection duplicate-free; with
      ctrl it flips membership of the clicked element and of nothing else. */
  lemma SelectChangeKeepsNoDup(b: Board, newTarget: Option<Element>, now: int)
    requires NoDup(b.target)
    ensures NoDup(SelectChange(b, newTarget, now).target)
    ensures newTarget.Some? && b.ctrlKey ==>
              forall y :: y in SelectChange(b, newTarget, now).target
                <==> (y in b.target) != (y == newTarget.value)
  {
    if newTarget.Some? && b.ctrlKey {
      ToggleMembers(b.target, newTarget.value);
    }
  }

  /** Ctrl-clicking an unselected element twice restores the selection. */
  lemma CtrlClickTwiceRestores(b: Board, t: Element, now1: int, now2: int)
    requires b.ctrlKey && t !in b.target
    ensures SelectChange(SelectChange(b, Some(t), now1), Some(t), now2).target == b.target
  {
  }

  /** `handleMultipleSelectChange`: a marquee result replaces the selection
      wholesale. Unlike a single click it leaves `lastSelectElement` alone. */
  function MultipleSelectChange(b: Board, elements: seq<Element>): (r: Board)
    ensures r.target == elements
    ensures r.(target := b.target) == b
  {
    b.(target := elements)
  }

  /** The latest marquee result wins outright, and a marquee never touches
      the record of the last single click. */
  lemma MarqueeOverrides(b: Board, first: seq<Element>, second: seq<Element>, t: Option<Element>, now: int)
    ensures MultipleSelectChange(MultipleSelectChange(b, first), second) == MultipleSelectChange(b, second)
    ensures MultipleSelectChange(SelectChange(b, t, now), second).lastSelect == LastSelect(now, t)
  {
  }

  /** `handleGroupClick`: a click inside a group. `targets` is the group the
      recogniser reports and `inputClasses` the input target's class list at
      the time of the click. A click whose input target is not a wrapper is
      ignored; with ctrl the input target is toggled in `targets`; without
      ctrl it becomes the whole selection. */
  function GroupClick(b: Board, inputTarget: Element, inputClasses: set<string>, targets: seq<Element>): (r: Board)
    ensures !IsWrapper(inputClasses) ==> r == b
    ensures IsWrapper(inputClasses) && b.ctrlKey && inputTarget !in targets ==>
              r.target == targets + [inputTarget]
    ensures IsWrapper(inputClasses) && b.ctrlKey && inputTarget in targets ==>
              var i := IndexOf(targets, inputTarget);
              r.target == targets[..i] + targets[i + 1..]
              && multiset(r.target) == multiset(targets) - multiset{inputTarget}
    ensures IsWrapper(inputClasses) && !b.ctrlKey ==> r.target == [inputTarget]
    ensures r.(target := b.target) == b
  {
    if !IsWrapper(inputClasses) then b
    else if b.ctrlKey then b.(target := Toggle(targets, inputTarget))
    else b.(target := [inputTarget])
  }

  /** With ctrl, a group click on a wrapper is a symmetric difference on a
      duplicate-free group and keeps it duplicate-free. */
  lemma GroupClickToggles(b: Board, inputTarget: Element, inputClasses: set<string>, targets: seq<Element>)
    requires NoDup(targets) && IsWrapper(inputClasses) && b.ctrlKey
    ensures NoDup(GroupClick(b, inputTarget, inputClasses, targets).target)
    ensures forall y :: y in GroupClick(b, inputTarget, inputClasses, targets).target
              <==> (y in targets) != (y == inputTarget)
  {
    assert GroupClick(b, inputTarget, inputClasses, targets).target == Toggle(targets, inputTarget);
    ToggleMembers(targets, inputTarget);
  }

  /** Two elements selected, ctrl held, a click on a third wrapper: the third
      is appended after the original two. */
  lemma GroupClickAppendScenario(b: Board, e1: Element, e2: Element, e3: Element, classes3: set<string>)
    requires b.ctrlKey && IsWrapper(classes3) && e3 != e1 && e3 != e2
    ensures GroupClick(b, e3, classes3, [e1, e2]).target == [e1, e2, e3]
  {
  }
}
